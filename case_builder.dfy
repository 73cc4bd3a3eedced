/**
 * The case builder: a total, deterministic map from a fetched post to a
 * synthetic risk case. Every derived field is picked from a fixed table by
 * integer arithmetic on the post's `id` and `userId`.
 */
module CaseBuilder {
  import opened Sequences
  import opened Strings

  datatype Category = AML | KYC | FRAUD
  datatype Status = OPEN | REVIEW | CLOSED

  /** A fetched post. Only `id` and `userId` feed the builder; `title` and `body` are ignored. */
  datatype Post = Post(userId: nat, id: nat, title: string, body: string)

  datatype Case = Case(
    id: nat,
    subjectName: string,
    riskCategory: Category,
    status: Status,
    riskScore: nat,
    signals: seq<string>,
    summary: string)

  const PEOPLE_FIRST: seq<string> := ["Alex", "Jordan", "Sam", "Taylor", "Morgan"]
  const PEOPLE_LAST: seq<string> := ["Ng", "Patel", "Garcia", "Kim", "Johnson"]
  const COMPANIES: seq<string> := ["Northstar Trading", "Blue Harbor LLC", "Orchid Ventures"]

  const SIGNALS: seq<string> := [
    "Sanctions match",
    "Adverse media",
    "High-risk jurisdiction",
    "Rapid account turnover",
    "Unusual transaction pattern"
  ]

  const REASONS: seq<string> := [
    "unusual transaction patterns inconsistent with prior activity",
    "identity information that does not fully match available records",
    "counterparties linked to high-risk geographies",
    "a sudden spike in volume and velocity over a short period",
    "payment behavior that resembles known fraud typologies"
  ]

  function CategoryName(c: Category): string {
    match c
    case AML => "AML"
    case KYC => "KYC"
    case FRAUD => "FRAUD"
  }

  function StatusName(s: Status): string {
    match s
    case OPEN => "OPEN"
    case REVIEW => "REVIEW"
    case CLOSED => "CLOSED"
  }

  /** `riskCategoryFromId`: one category per residue of `id` modulo 3. */
  function RiskCategoryFromId(id: nat): (c: Category)
    ensures c == AML <==> id % 3 == 0
    ensures c == KYC <==> id % 3 == 1
    ensures c == FRAUD <==> id % 3 == 2
  {
    if id % 3 == 0 then AML else if id % 3 == 1 then KYC else FRAUD
  }

  /** `statusFromId`: one status per residue of `id` modulo 3. */
  function StatusFromId(id: nat): (s: Status)
    ensures s == OPEN <==> id % 3 == 0
    ensures s == REVIEW <==> id % 3 == 1
    ensures s == CLOSED <==> id % 3 == 2
  {
    if id % 3 == 0 then OPEN else if id % 3 == 1 then REVIEW else CLOSED
  }

  /** The two positions `id % 5` and `(id + 2) % 5` of the signal table never coincide. */
  lemma SignalPositionsDiffer(id: nat)
    ensures id % |SIGNALS| != (id + 2) % |SIGNALS|
  {
    var q := id / 5;
    var r := id % 5;
    assert id + 2 == 5 * q + (r + 2);
    if r + 2 < 5 {
      assert (id + 2) % 5 == r + 2;
    } else {
      assert id + 2 == 5 * (q + 1) + (r - 3);
      assert (id + 2) % 5 == r - 3;
    }
  }

  /**
   * `signalsFromId`: the signals at `id % 5` and `(id + 2) % 5`, with repeats
   * removed. The two positions always differ and the table has no repeats, so
   * the de-duplication never removes anything.
   */
  function SignalsFromId(id: nat): (r: seq<string>)
    ensures r == [SIGNALS[id % 5], SIGNALS[(id + 2) % 5]]
    ensures |r| == 2 && Distinct(r)
    ensures forall i :: 0 <= i < |r| ==> r[i] in SIGNALS
  {
    SignalPositionsDiffer(id);
    Dedup([SIGNALS[id % |SIGNALS|], SIGNALS[(id + 2) % |SIGNALS|]])
  }

  /** `subjectNameFrom`: a company for an even `userId`, a "First Last" person for an odd one. */
  function SubjectNameFrom(post: Post): (name: string)
    ensures post.userId % 2 == 0 ==> IsCompanyName(name)
    ensures post.userId % 2 == 1 ==> IsPersonName(name)
  {
    if post.userId % 2 == 0 then COMPANIES[(post.id + post.userId) % |COMPANIES|]
    else
      var i, j := (post.userId + post.id) % |PEOPLE_FIRST|, (post.id * 7) % |PEOPLE_LAST|;
      var name := PEOPLE_FIRST[i] + " " + PEOPLE_LAST[j];
      assert IsPersonName(name) by {
        assert 0 <= i < |PEOPLE_FIRST| && 0 <= j < |PEOPLE_LAST| && name == PEOPLE_FIRST[i] + " " + PEOPLE_LAST[j];
      }
      name
  }

  predicate IsCompanyName(name: string) {
    name in COMPANIES
  }

  predicate IsPersonName(name: string) {
    exists i, j | 0 <= i < |PEOPLE_FIRST| && 0 <= j < |PEOPLE_LAST| :: name == PEOPLE_FIRST[i] + " " + PEOPLE_LAST[j]
  }

  /** No company in the table reads as a "First Last" person name. */
  lemma CompanyIsNoPerson(name: string)
    requires IsCompanyName(name)
    ensures !IsPersonName(name)
  {
  }

  /** The subject is a company exactly when `userId` is even, and a person exactly when it is odd. */
  lemma SubjectNameKind(post: Post)
    ensures IsCompanyName(SubjectNameFrom(post)) <==> post.userId % 2 == 0
    ensures IsPersonName(SubjectNameFrom(post)) <==> post.userId % 2 == 1
    ensures post.userId % 2 == 0 ==> SubjectNameFrom(post) == COMPANIES[(post.id + post.userId) % 3]
    ensures post.userId % 2 == 1 ==>
      SubjectNameFrom(post) == PEOPLE_FIRST[(post.userId + post.id) % 5] + " " + PEOPLE_LAST[(post.id * 7) % 5]
  {
    var name := SubjectNameFrom(post);
    if IsCompanyName(name) {
      CompanyIsNoPerson(name);
    }
  }

  /** The optional tail of the summary: present exactly when there are signals. */
  function SignalsClause(signals: seq<string>): (r: string)
    ensures r == "" <==> signals == []
    ensures signals != [] ==> r == " Key signals: " + Join(signals, ", ") + "."
    ensures signals != [] ==> |r| >= 15 && r[..14] == " Key signals: " && r[|r| - 1] == '.'
    ensures forall i :: 0 <= i < |signals| ==> Contains(r, signals[i])
  {
    if |signals| > 0 then
      var joined := Join(signals, ", ");
      forall i | 0 <= i < |signals| ensures Contains(" Key signals: " + joined + ".", signals[i]) {
        ContainsRight(" Key signals: ", joined, signals[i]);
        ContainsLeft(" Key signals: " + joined, ".", signals[i]);
      }
      " Key signals: " + joined + "."
    else ""
  }

  /** `englishSummary`: the templated investigation note, its pieces in template order. */
  function EnglishSummary(subjectName: string, riskCategory: Category, status: Status,
                          riskScore: nat, signals: seq<string>, id: nat): (s: string)
    ensures |s| > 31 && s[..31] == "Investigation note: We flagged "
    ensures s[|s| - 1] == '.'
  {
    var pieces := SummaryPieces(subjectName, riskCategory, status, riskScore, signals, id);
    ConcatSnoc(pieces);
    assert pieces[..11][..10] == pieces[..10];
    ConcatSnoc(pieces[..11]);
    var s := Concat(pieces);
    assert s == pieces[0] + Concat(pieces[1..]);
    assert s == Concat(pieces[..10]) + "/100." + pieces[11];
    assert s[|s| - 1] == '.' by {
      if pieces[11] == "" {
        assert s == Concat(pieces[..10]) + "/100.";
      }
    }
    s
  }

  function SummaryPieces(subjectName: string, riskCategory: Category, status: Status,
                         riskScore: nat, signals: seq<string>, id: nat): (pieces: seq<string>)
    ensures |pieces| == 12
  {
    ["Investigation note: We flagged ", subjectName,
     " for a ", CategoryName(riskCategory),
     " review because ", REASONS[id % |REASONS|],
     ". Status: ", StatusName(status),
     ". Risk score: ", NatToString(riskScore),
     "/100.", SignalsClause(signals)]
  }

  /**
   * The summary mentions the subject, the category, the reason chosen by `id`,
   * the status, the score and every signal. It is the fixed head, ending in
   * "/100.", followed by the signals clause, which is present exactly when
   * there are signals.
   */
  lemma {:induction false} SummaryMentions(subjectName: string, riskCategory: Category, status: Status,
                                          riskScore: nat, signals: seq<string>, id: nat)
    ensures var s := EnglishSummary(subjectName, riskCategory, status, riskScore, signals, id);
      && Contains(s, subjectName)
      && Contains(s, CategoryName(riskCategory))
      && Contains(s, REASONS[id % 5])
      && Contains(s, StatusName(status))
      && Contains(s, NatToString(riskScore))
      && (forall i :: 0 <= i < |signals| ==> Contains(s, signals[i]))
      && (signals == [] ==> |s| >= 5 && s[|s| - 5..] == "/100.")
      && (signals != [] ==> Contains(s, " Key signals: "))
      && s == Concat(SummaryPieces(subjectName, riskCategory, status, riskScore, signals, id)[..10])
              + "/100." + SignalsClause(signals)
  {
    var pieces := SummaryPieces(subjectName, riskCategory, status, riskScore, signals, id);
    var s := Concat(pieces);
    ConcatContainsPieces(pieces);
    assert pieces[1] == subjectName && pieces[3] == CategoryName(riskCategory) && pieces[5] == REASONS[id % 5];
    assert pieces[7] == StatusName(status) && pieces[9] == NatToString(riskScore);
    var clause := pieces[11];
    assert Contains(s, clause);
    forall i | 0 <= i < |signals| ensures Contains(s, signals[i]) {
      ContainsWithin(s, clause, signals[i]);
    }
    ConcatSnoc(pieces);
    assert pieces[..11][..10] == pieces[..10];
    ConcatSnoc(pieces[..11]);
    var prefix := Concat(pieces[..10]);
    assert s == prefix + "/100." + clause;
    if signals == [] {
      assert s == prefix + "/100." + "";
      assert s[|s| - 5..] == "/100.";
    } else {
      assert OccursAt(clause, " Key signals: ", 0);
      ContainsWithin(s, clause, " Key signals: ");
    }
  }

  /** `buildCaseFromPost`. */
  function BuildCase(post: Post): (c: Case)
    ensures c.id == post.id
    ensures c.riskScore == (post.id * 13) % 101 && 0 <= c.riskScore <= 100
    ensures c.riskCategory in {AML, KYC, FRAUD} && c.status in {OPEN, REVIEW, CLOSED}
    ensures (c.riskCategory == AML <==> c.status == OPEN)
         && (c.riskCategory == KYC <==> c.status == REVIEW)
         && (c.riskCategory == FRAUD <==> c.status == CLOSED)
    ensures 1 <= |c.signals| <= 2 && Distinct(c.signals)
    ensures forall i :: 0 <= i < |c.signals| ==> c.signals[i] in SIGNALS
    ensures c.subjectName == SubjectNameFrom(post) && c.signals == SignalsFromId(post.id)
    ensures c.riskCategory == RiskCategoryFromId(post.id) && c.status == StatusFromId(post.id)
    ensures c.summary == EnglishSummary(c.subjectName, c.riskCategory, c.status, c.riskScore, c.signals, c.id)
  {
    var id := post.id;
    var subjectName := SubjectNameFrom(post);
    var riskCategory := RiskCategoryFromId(id);
    var status := StatusFromId(id);
    var riskScore := (id * 13) % 101;
    var signals := SignalsFromId(id);
    var summary := EnglishSummary(subjectName, riskCategory, status, riskScore, signals, id);
    Case(id, subjectName, riskCategory, status, riskScore, signals, summary)
  }

  /** The case depends on the post's `id` and `userId` only. */
  lemma BuildCaseIgnoresText(p: Post, q: Post)
    requires p.id == q.id && p.userId == q.userId
    ensures BuildCase(p) == BuildCase(q)
  {
    assert SubjectNameFrom(p) == SubjectNameFrom(q);
  }

  /** `posts.map(buildCaseFromPost)`. */
  function BuildCases(posts: seq<Post>): (cases: seq<Case>)
    ensures |cases| == |posts|
    ensures forall i :: 0 <= i < |posts| ==> cases[i] == BuildCase(posts[i])
  {
    seq(|posts|, i requires 0 <= i < |posts| => BuildCase(posts[i]))
  }

  /** A post with `userId` 1 and `id` 7, whatever its text. */
  lemma ScenarioUser1Post7(post: Post)
    requires post.userId == 1 && post.id == 7
    ensures var c := BuildCase(post);
      && c.id == 7 && c.riskCategory == KYC && c.status == REVIEW && c.riskScore == 91
      && c.subjectName == "Taylor Johnson"
      && c.signals == ["High-risk jurisdiction", "Unusual transaction pattern"]
  {
    var c := BuildCase(post);
    assert c.subjectName == PEOPLE_FIRST[3] + " " + PEOPLE_LAST[4];
    assert c.signals == [SIGNALS[2], SIGNALS[4]];
  }

  /** A post with `userId` 2 and `id` 10, whatever its text. */
  lemma ScenarioUser2Post10(post: Post)
    requires post.userId == 2 && post.id == 10
    ensures var c := BuildCase(post);
      && c.riskScore == 29 && c.subjectName == "Northstar Trading"
  {
    var c := BuildCase(post);
    assert c.subjectName == COMPANIES[0];
  }
}
