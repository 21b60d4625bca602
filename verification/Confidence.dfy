/** internal/domain/evidence.go, internal/app/confidence_claims.go: how far evidence supports a claim. */
module Evidence {
  import opened Wrappers

  /** EvidenceKind; Unrecognized is any other text. */
  datatype EvidenceKind = Resolved | Observed | Declared | Pinned | Inferred | UnknownKind | Unrecognized

  datatype ClaimType =
    | ResourceType | ProjectOwnership | RequiredDependency | OutputDeclared | BuildCommandKnown | InputsAvailable
    | ToolchainAvailable | NoTrackedOriginals | PathNotLinked

  datatype Polarity = Unstated | Supports | Contradicts

  datatype Item = Item(id: string, claim: ClaimType, kind: EvidenceKind, polarity: Polarity, sourcePath: string,
                       sourceFamily: string, validUntil: Option<int>)

  datatype Status = Known | Partial | Unknown | Conflicted | NotApplicable

  /** The identifiers are a sorted list in the source: as good as a multiset. */
  datatype ClaimAssessment = ClaimAssessment(claim: ClaimType, score: int, status: Status,
                                             evidenceIDs: multiset<string>)

  function DefaultConfidence(kind: EvidenceKind): nat {
    match kind
    case Resolved => 90
    case Observed => 85
    case Declared => 75
    case Pinned => 60
    case Inferred => 40
    case UnknownKind => 10
    case Unrecognized => 0
  }

  function Family(e: Item): string {
    if e.sourceFamily != "" then e.sourceFamily else if e.sourcePath != "" then e.sourcePath else e.id
  }

  // What the assessment may depend on.

  predicate Supporting(claim: ClaimType, e: Item) {
    e.claim == claim && e.kind != UnknownKind && e.polarity != Contradicts
  }

  predicate Expired(e: Item, now: int) {
    e.validUntil.Some? && now > e.validUntil.value
  }

  function Families(claim: ClaimType, evidence: seq<Item>): set<string> {
    set e | e in evidence && Supporting(claim, e) && DefaultConfidence(e.kind) > 0 :: Family(e)
  }

  predicate HasUnknown(claim: ClaimType, evidence: seq<Item>) {
    exists e | e in evidence :: e.claim == claim && e.kind == UnknownKind
  }

  predicate Contradicted(claim: ClaimType, evidence: seq<Item>) {
    exists e | e in evidence :: e.claim == claim && e.kind != UnknownKind && e.polarity == Contradicts
  }

  predicate Stale(claim: ClaimType, evidence: seq<Item>, now: int) {
    exists e | e in evidence :: Supporting(claim, e) && Expired(e, now)
  }

  function Strongest(claim: ClaimType, evidence: seq<Item>): (m: nat)
    ensures m <= 90
    ensures forall e | e in evidence && Supporting(claim, e) :: DefaultConfidence(e.kind) <= m
    ensures m > 0 ==> exists e | e in evidence :: Supporting(claim, e) && DefaultConfidence(e.kind) == m
  {
    if evidence == [] then 0 else
      var e, rest := evidence[0], Strongest(claim, evidence[1..]);
      if Supporting(claim, e) && DefaultConfidence(e.kind) > rest then DefaultConfidence(e.kind) else rest
  }

  // The arithmetic.

  function Bonus(score: nat): nat
    requires score <= 100
  {
    if (100 - score) / 4 > 5 then 5 else (100 - score) / 4
  }

  /** The score after n more families have agreed. */
  function Climb(score: nat, n: nat): (r: nat)
    requires score <= 97
    ensures score <= r <= 97
  {
    if n == 0 then score else
      var before := Climb(score, n - 1);
      before + Bonus(before)
  }

  function AtMost(score: nat, cap: nat): nat {
    if score > cap then cap else score
  }

  /** Everything the score depends on. */
  function ScoreOf(strongest: nat, families: nat, contradicted: bool, stale: bool): (r: nat)
    requires strongest <= 97
  {
    var raw := if families == 0 then 0 else Climb(strongest, families - 1);
    var capped := if contradicted then AtMost(raw, 49) else raw;
    if stale then AtMost(capped, 30) else capped
  }

  function StatusOf(families: nat, contradicted: bool, stale: bool, hasUnknown: bool): Status {
    if families == 0 && !contradicted then Unknown
    else if contradicted then Conflicted
    else if stale || hasUnknown then Partial
    else Known
  }

  function IDsOf(claim: ClaimType, evidence: seq<Item>): multiset<string> {
    if evidence == [] then multiset{} else
      var n := |evidence| - 1;
      IDsOf(claim, evidence[..n]) + if evidence[n].claim == claim then multiset{evidence[n].id} else multiset{}
  }

  function Assessed(claim: ClaimType, evidence: seq<Item>, now: int): ClaimAssessment {
    var families := |Families(claim, evidence)|;
    var contradicted, stale := Contradicted(claim, evidence), Stale(claim, evidence, now);
    var nothing := families == 0 && !contradicted;
    ClaimAssessment(claim,
                    if nothing then 0 else ScoreOf(Strongest(claim, evidence), families, contradicted, stale),
                    StatusOf(families, contradicted, stale, HasUnknown(claim, evidence)),
                    if nothing then multiset{} else IDsOf(claim, evidence))
  }
}

module ConfidenceClaims {
  import opened Evidence
  import opened Sorting

  /** The loop's map from source family to the best score seen in it. */
  ghost predicate BestPerFamily(claim: ClaimType, evidence: seq<Item>, strongest: map<string, int>) {
    (forall e | e in evidence && Supporting(claim, e) && DefaultConfidence(e.kind) > 0 ::
       Family(e) in strongest && strongest[Family(e)] >= DefaultConfidence(e.kind)) &&
    (forall f | f in strongest ::
       exists e | e in evidence ::
         Supporting(claim, e) && Family(e) == f && DefaultConfidence(e.kind) == strongest[f] && strongest[f] > 0)
  }

  lemma BestCoversFamilies(claim: ClaimType, evidence: seq<Item>, strongest: map<string, int>)
    requires BestPerFamily(claim, evidence, strongest)
    ensures strongest.Keys == Families(claim, evidence)
    ensures forall f | f in strongest :: strongest[f] <= Strongest(claim, evidence)
    ensures strongest != map[] ==> exists f | f in strongest :: strongest[f] == Strongest(claim, evidence)
  {
    if f :| f in strongest {
      var m := Strongest(claim, evidence);
      assert m > 0;
      var e :| e in evidence && Supporting(claim, e) && DefaultConfidence(e.kind) == m;
      assert strongest[Family(e)] >= m;
    }
  }

  /** The variables of the pass over the evidence. */
  datatype Tally = Tally(strongest: map<string, int>, ids: multiset<string>, contradicted: bool, stale: bool,
                         hasUnknown: bool)

  ghost predicate Gathered(claim: ClaimType, evidence: seq<Item>, now: int, t: Tally) {
    BestPerFamily(claim, evidence, t.strongest) && t.ids == IDsOf(claim, evidence) &&
    t.contradicted == Contradicted(claim, evidence) && t.stale == Stale(claim, evidence, now) &&
    t.hasUnknown == HasUnknown(claim, evidence)
  }

  function Raised(claim: ClaimType, strongest: map<string, int>, e: Item): map<string, int> {
    var f, score := Family(e), DefaultConfidence(e.kind);
    if Supporting(claim, e) && score > (if f in strongest then strongest[f] else 0) then strongest[f := score]
    else strongest
  }

  method Consider(claim: ClaimType, item: Item, now: int, t: Tally) returns (next: Tally)
    ensures next == Tally(Raised(claim, t.strongest, item),
                          t.ids + (if item.claim == claim then multiset{item.id} else multiset{}),
                          t.contradicted ||
                            (item.claim == claim && item.kind != UnknownKind && item.polarity == Contradicts),
                          t.stale || (Supporting(claim, item) && Expired(item, now)),
                          t.hasUnknown || (item.claim == claim && item.kind == UnknownKind))
  {
    hide DefaultConfidence;
    next := t;
    if item.claim != claim {
      return;
    }
    next := next.(ids := next.ids + multiset{item.id});
    if item.kind == UnknownKind {
      next := next.(hasUnknown := true);
      return;
    }
    if item.polarity == Contradicts {
      next := next.(contradicted := true);
      return;
    }
    var family := item.sourceFamily;
    if family == "" {
      family := item.sourcePath;
    }
    if family == "" {
      family := item.id;
    }
    var score := DefaultConfidence(item.kind);
    if score > (if family in next.strongest then next.strongest[family] else 0) {
      next := next.(strongest := next.strongest[family := score]);
    }
    if item.validUntil.Some? && now > item.validUntil.value {
      next := next.(stale := true);
    }
  }

  lemma IDsOfOneMore(claim: ClaimType, evidence: seq<Item>, e: Item)
    ensures IDsOf(claim, evidence + [e]) ==
              IDsOf(claim, evidence) + if e.claim == claim then multiset{e.id} else multiset{}
  {
    assert (evidence + [e])[..|evidence|] == evidence;
  }

  lemma FlagsOfOneMore(claim: ClaimType, evidence: seq<Item>, now: int, e: Item)
    ensures Contradicted(claim, evidence + [e]) <==>
              Contradicted(claim, evidence) || (e.claim == claim && e.kind != UnknownKind && e.polarity == Contradicts)
    ensures Stale(claim, evidence + [e], now) <==>
              Stale(claim, evidence, now) || (Supporting(claim, e) && Expired(e, now))
    ensures HasUnknown(claim, evidence + [e]) <==>
              HasUnknown(claim, evidence) || (e.claim == claim && e.kind == UnknownKind)
  {
    assert forall x :: x in evidence + [e] <==> x in evidence || x == e;
  }

  lemma BestOfOneMore(claim: ClaimType, evidence: seq<Item>, e: Item, strongest: map<string, int>)
    requires BestPerFamily(claim, evidence, strongest)
    ensures BestPerFamily(claim, evidence + [e], Raised(claim, strongest, e))
  {
    var more := evidence + [e];
    assert forall x :: x in more <==> x in evidence || x == e;
  }

  method Gather(claim: ClaimType, evidence: seq<Item>, now: int) returns (t: Tally)
    ensures Gathered(claim, evidence, now, t)
  {
    hide Raised, BestPerFamily, Contradicted, Stale, HasUnknown, IDsOf;
    t := Tally(map[], multiset{}, false, false, false);
    NothingGathered(claim, now);
    for i := 0 to |evidence|
      invariant Gathered(claim, evidence[..i], now, t)
    {
      var before, e := evidence[..i], evidence[i];
      assert evidence[..i + 1] == before + [e];
      IDsOfOneMore(claim, before, e);
      FlagsOfOneMore(claim, before, now, e);
      BestOfOneMore(claim, before, e, t.strongest);
      t := Consider(claim, e, now, t);
    }
    assert evidence[..|evidence|] == evidence;
  }

  lemma NothingGathered(claim: ClaimType, now: int)
    ensures Gathered(claim, [], now, Tally(map[], multiset{}, false, false, false))
  {
  }

  method AssessClaim(claim: ClaimType, evidence: seq<Item>, now: int) returns (r: ClaimAssessment)
    ensures r == Assessed(claim, evidence, now)
  {
    hide BestPerFamily, Contradicted, Stale, HasUnknown, IDsOf, Families, Strongest, Climb;
    var tally := Gather(claim, evidence, now);
    var Tally(strongest, ids, contradicted, stale, hasUnknown) := tally;
    BestCoversFamilies(claim, evidence, strongest);
    assert |strongest| == |strongest.Keys|;
    if strongest == map[] && !contradicted {
      return ClaimAssessment(claim, 0, Unknown, multiset{});
    }
    var scores := Scores(strongest);
    if |scores| > 0 {
      assert scores[0] in scores;
      assert scores[0] == Strongest(claim, evidence);
    }
    var score := Corroborate(scores);
    var status := Known;
    if hasUnknown {
      status := Partial;
    }
    if contradicted {
      if score > 49 {
        score := 49;
      }
      status := Conflicted;
    }
    if stale {
      if score > 30 {
        score := 30;
      }
      if status != Conflicted {
        status := Partial;
      }
    }
    return ClaimAssessment(claim, score, status, ids);
  }

  /** The strongest score, raised once for every further family. */
  method Corroborate(scores: seq<int>) returns (score: nat)
    requires scores != [] ==> 0 <= scores[0] <= 97
    ensures score == if scores == [] then 0 else Climb(scores[0], |scores| - 1)
  {
    score := 0;
    if |scores| > 0 {
      score := scores[0];
    }
    if |scores| > 1 {
      for k := 1 to |scores|
        invariant score == Climb(scores[0], k - 1)
      {
        var bonus := (100 - score) / 4;
        if bonus > 5 {
          bonus := 5;
        }
        score := score + bonus;
      }
    }
  }

  /** The family scores in descending order. */
  method Scores(strongest: map<string, int>) returns (scores: seq<int>)
    ensures |scores| == |strongest|
    ensures forall x | x in scores :: exists f | f in strongest :: strongest[f] == x
    ensures forall f | f in strongest :: strongest[f] in scores && strongest[f] <= scores[0]
  {
    var collected: seq<int> := [];
    var todo := strongest.Keys;
    while todo != {}
      invariant todo <= strongest.Keys && |collected| + |todo| == |strongest|
      invariant forall x | x in collected :: exists f | f in strongest :: strongest[f] == x
      invariant forall f | f in strongest && f !in todo :: strongest[f] in collected
      decreases |todo|
    {
      var f :| f in todo;
      todo := todo - {f};
      collected := collected + [strongest[f]];
    }
    scores := Sort((x: int, y: int) => x > y, collected);
    assert |multiset(scores)| == |scores| && |multiset(collected)| == |collected|;
    forall x
      ensures x in scores <==> x in collected
    {
      assert x in multiset(scores) <==> x in multiset(collected);
    }
    forall f | f in strongest
      ensures strongest[f] in scores && strongest[f] <= scores[0]
    {
      var j :| 0 <= j < |scores| && scores[j] == strongest[f];
    }
  }

  // What the score is worth.

  lemma {:induction false} ClimbGrows(a: nat, b: nat, m: nat, n: nat)
    requires a <= b <= 97 && m <= n
    ensures Climb(a, m) <= Climb(b, n)
    decreases n
  {
    if n > 0 {
      if m == n {
        ClimbGrows(a, b, m - 1, n - 1);
      } else {
        ClimbGrows(a, b, m, n - 1);
      }
    }
  }

  /** However many families agree, a claim stays below 98; 97 is reached, and the caps dominate any agreement. */
  lemma ScoreBounds(claim: ClaimType, evidence: seq<Item>, now: int)
    ensures 0 <= Assessed(claim, evidence, now).score <= 97
    ensures Contradicted(claim, evidence) ==> Assessed(claim, evidence, now).score <= 49
    ensures Stale(claim, evidence, now) ==> Assessed(claim, evidence, now).score <= 30
    ensures Climb(90, 5) == 97
  {
    hide Families, Contradicted, Stale, HasUnknown, IDsOf, Strongest;
    assert Climb(90, 1) == 92 && Climb(90, 2) == 94 && Climb(90, 3) == 95 && Climb(90, 4) == 96;
  }

  /** Order and repetition of evidence do not matter: only which items there are does. */
  lemma SameItemsSameScore(claim: ClaimType, a: seq<Item>, b: seq<Item>, now: int)
    requires forall e :: e in a <==> e in b
    ensures Assessed(claim, a, now).score == Assessed(claim, b, now).score
    ensures Assessed(claim, a, now).status == Assessed(claim, b, now).status
  {
    hide Strongest, IDsOf, ScoreOf, StatusOf, DefaultConfidence, Family;
    assert Families(claim, a) == Families(claim, b);
    StrongestOfMore(claim, a, b);
    StrongestOfMore(claim, b, a);
  }

  lemma StrongestOfMore(claim: ClaimType, a: seq<Item>, b: seq<Item>)
    requires forall e | e in a :: e in b
    ensures Strongest(claim, a) <= Strongest(claim, b)
  {
    hide DefaultConfidence;
    var m := Strongest(claim, a);
    if m > 0 {
      var e :| e in a && Supporting(claim, e) && DefaultConfidence(e.kind) == m;
      assert e in b;
    }
  }

  /** Nor do items about other claims, or which item of a family is the strong one: any evidence with as strong a
      best item, as many families and the same flags scores the same. */
  lemma ScoreDependsOnLittle(claim: ClaimType, a: seq<Item>, b: seq<Item>, now: int, later: int)
    requires Strongest(claim, a) == Strongest(claim, b) && |Families(claim, a)| == |Families(claim, b)|
    requires Contradicted(claim, a) == Contradicted(claim, b) && Stale(claim, a, now) == Stale(claim, b, later)
    ensures Assessed(claim, a, now).score == Assessed(claim, b, later).score
  {
  }

  /** One more supporting, unexpired item of a known kind never lowers the score. */
  lemma SupportNeverHurts(claim: ClaimType, evidence: seq<Item>, e: Item, now: int)
    requires Supporting(claim, e) && !Expired(e, now)
    ensures Assessed(claim, evidence, now).score <= Assessed(claim, evidence + [e], now).score
    ensures Assessed(claim, evidence, now).status != Unknown ==>
              Assessed(claim, evidence + [e], now).status == Assessed(claim, evidence, now).status
  {
    var more := evidence + [e];
    hide Strongest, IDsOf, Climb, Bonus, DefaultConfidence, Family, Families;
    FlagsOfOneMore(claim, evidence, now, e);
    hide Contradicted, Stale, HasUnknown, Expired;
    assert forall x | x in evidence :: x in more;
    StrongestOfMore(claim, evidence, more);
    FamiliesOfMore(claim, evidence, more);
    var n, n' := |Families(claim, evidence)|, |Families(claim, more)|;
    if n > 0 {
      ClimbGrows(Strongest(claim, evidence), Strongest(claim, more), n - 1, n' - 1);
    }
  }

  lemma FamiliesOfMore(claim: ClaimType, a: seq<Item>, b: seq<Item>)
    requires forall e | e in a :: e in b
    ensures |Families(claim, a)| <= |Families(claim, b)|
  {
    hide DefaultConfidence, Family;
    assert Families(claim, b) == Families(claim, a) + (Families(claim, b) - Families(claim, a));
  }
}
