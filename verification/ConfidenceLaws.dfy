/** internal/app/confidence_claims.go: what one more item of evidence, or time, does to a claim. */
module ConfidenceLaws {
  import opened Wrappers
  import opened Evidence
  import opened ConfidenceClaims

  /** What each kind of evidence is worth on its own. */
  function Worth(kind: EvidenceKind): int {
    match kind
    case Resolved => 90
    case Observed => 85
    case Declared => 75
    case Pinned => 60
    case Inferred => 40
    case UnknownKind => 0
    case Unrecognized => 0
  }

  predicate Supports(e: Item) {
    e.kind !in {UnknownKind, Unrecognized} && e.polarity != Contradicts
  }

  function Lower(a: int, b: int): int {
    if a < b then a else b
  }

  predicate IsAssessed(r: ClaimAssessment, score: int, status: Status) {
    r.score == score && r.status == status
  }

  /** A claim with one item of evidence: unknown, contradicted, or worth what the item is, less once it has expired. */
  lemma OneItem(claim: ClaimType, e: Item, now: int)
    requires e.claim == claim
    ensures var r := Assessed(claim, [e], now);
            var expired := e.validUntil.Some? && e.validUntil.value < now;
            r.claim == claim &&
            if e.kind != UnknownKind && e.polarity == Contradicts then IsAssessed(r, 0, Conflicted)
            else if !Supports(e) then r == ClaimAssessment(claim, 0, Unknown, multiset{})
            else
              r.evidenceIDs == multiset{e.id} &&
              if expired then IsAssessed(r, Lower(Worth(e.kind), 30), Partial) else IsAssessed(r, Worth(e.kind), Known)
  {
    var evidence := [e];
    assert forall x :: x in evidence <==> x == e;
    assert evidence[..0] == [] && evidence[1..] == [];
    var families := Families(claim, evidence);
    if Supports(e) {
      assert families == {Family(e)};
      assert Strongest(claim, evidence) == DefaultConfidence(e.kind);
    } else {
      assert families == {};
    }
    assert IDsOf(claim, evidence) == multiset{e.id};
  }

  predicate OtherSource(x: Item, y: Item) {
    x.sourceFamily != "" && y.sourceFamily != "" && x.sourceFamily != y.sourceFamily
  }

  predicate SameSource(x: Item, y: Item) {
    x.sourceFamily == y.sourceFamily &&
    (x.sourceFamily != "" ||
     (x.sourcePath == y.sourcePath && (x.sourcePath != "" || x.id == y.id)))
  }

  lemma MoreOfTheSameKind(claim: ClaimType, evidence: seq<Item>, x: Item, e: Item)
    requires x in evidence && x.claim == e.claim == claim && Supports(x) && Supports(e) && x.kind == e.kind
    ensures Strongest(claim, evidence + [e]) == Strongest(claim, evidence)
    ensures Families(claim, evidence + [e]) == Families(claim, evidence) + {Family(e)}
    ensures Family(x) in Families(claim, evidence)
  {
    hide DefaultConfidence, Family, Families;
    var more := evidence + [e];
    assert forall y :: y in more <==> y in evidence || y == e;
    StrongestOfMore(claim, evidence, more);
    var m := Strongest(claim, more);
    if m > 0 {
      var y :| y in more && Supporting(claim, y) && DefaultConfidence(y.kind) == m;
      assert y in evidence || y.kind == x.kind;
    }
    KnownKind(x);
    FamiliesOfMore(claim, evidence, x, e);
  }

  lemma FamiliesOfMore(claim: ClaimType, evidence: seq<Item>, x: Item, e: Item)
    requires x in evidence && x.claim == e.claim == claim && Supports(x) && Supports(e)
    requires DefaultConfidence(x.kind) > 0 && x.kind == e.kind
    ensures Families(claim, evidence + [e]) == Families(claim, evidence) + {Family(e)}
    ensures Family(x) in Families(claim, evidence)
  {
    hide DefaultConfidence, Family;
    assert forall y :: y in evidence + [e] <==> y in evidence || y == e;
    assert e in evidence + [e] && Supporting(claim, e);
  }

  lemma KnownKind(e: Item)
    requires Supports(e)
    ensures DefaultConfidence(e.kind) > 0
  {
  }

  /** One more source that says what another already says adds a quarter of what is missing, and at most 5. */
  lemma AnotherSource(claim: ClaimType, evidence: seq<Item>, x: Item, e: Item, now: int)
    requires x in evidence && x.claim == e.claim == claim && Supports(x) && Supports(e) && x.kind == e.kind
    requires forall y | y in evidence :: OtherSource(y, e)
    requires !Contradicted(claim, evidence) && !Stale(claim, evidence, now) && !Expired(e, now)
    ensures var score := Assessed(claim, evidence, now).score;
            Assessed(claim, evidence + [e], now).score == score + Lower(5, (100 - score) / 4)
  {
    hide Strongest, IDsOf, DefaultConfidence, Families, HasUnknown, Contradicted, Stale, Expired, Family;
    FlagsOfOneMore(claim, evidence, now, e);
    MoreOfTheSameKind(claim, evidence, x, e);
    NewFamily(claim, evidence, e);
    var families := Families(claim, evidence);
    assert families != {};
    assert |families + {Family(e)}| == |families| + 1;
  }

  lemma NewFamily(claim: ClaimType, evidence: seq<Item>, e: Item)
    requires forall y | y in evidence :: OtherSource(y, e)
    ensures Family(e) !in Families(claim, evidence)
  {
  }

  /** A source that repeats itself adds nothing. */
  lemma SameSourceAddsNothing(claim: ClaimType, evidence: seq<Item>, x: Item, e: Item, now: int)
    requires x in evidence && x.claim == e.claim == claim && Supports(x) && Supports(e) && x.kind == e.kind
    requires SameSource(x, e) && !Expired(e, now)
    ensures Assessed(claim, evidence + [e], now).score == Assessed(claim, evidence, now).score
  {
    assert Family(x) == Family(e);
    hide Contradicted, Stale, Expired, Strongest, Families, IDsOf, DefaultConfidence, HasUnknown, Family;
    FlagsOfOneMore(claim, evidence, now, e);
    MoreOfTheSameKind(claim, evidence, x, e);
    assert Families(claim, evidence) + {Family(e)} == Families(claim, evidence);
  }

  /** A first contradiction caps the score at 49, and nothing but it makes the claim conflicting. */
  lemma ContradictionCaps(claim: ClaimType, evidence: seq<Item>, e: Item, now: int)
    requires e.claim == claim && e.kind != UnknownKind && e.polarity == Contradicts && !Contradicted(claim, evidence)
    ensures var before, r := Assessed(claim, evidence, now), Assessed(claim, evidence + [e], now);
            IsAssessed(r, Lower(before.score, 49), Conflicted) && before.status != Conflicted
  {
    hide Stale, Strongest, Families, IDsOf, DefaultConfidence, Contradicted, HasUnknown, Climb;
    NoSupport(claim, evidence, e, now);
  }

  lemma NoSupport(claim: ClaimType, evidence: seq<Item>, e: Item, now: int)
    requires !Supporting(claim, e)
    ensures Strongest(claim, evidence + [e]) == Strongest(claim, evidence)
    ensures Families(claim, evidence + [e]) == Families(claim, evidence)
    ensures Stale(claim, evidence + [e], now) <==> Stale(claim, evidence, now)
    ensures Contradicted(claim, evidence + [e]) <==>
              Contradicted(claim, evidence) || (e.claim == claim && e.kind != UnknownKind && e.polarity == Contradicts)
    ensures HasUnknown(claim, evidence + [e]) <==>
              HasUnknown(claim, evidence) || (e.claim == claim && e.kind == UnknownKind)
  {
    hide Strongest, Families;
    FlagsOfOneMore(claim, evidence, now, e);
    NoSupportNoScore(claim, evidence, e);
  }

  lemma NoSupportNoScore(claim: ClaimType, evidence: seq<Item>, e: Item)
    requires !Supporting(claim, e)
    ensures Strongest(claim, evidence + [e]) == Strongest(claim, evidence)
    ensures Families(claim, evidence + [e]) == Families(claim, evidence)
  {
    hide DefaultConfidence, Family, Supporting;
    var more := evidence + [e];
    assert forall y :: y in more <==> y in evidence || y == e;
    assert Families(claim, more) == Families(claim, evidence);
    hide Families;
    StrongestOfMore(claim, evidence, more);
    var m := Strongest(claim, more);
    if m > 0 {
      var y :| y in more && Supporting(claim, y) && DefaultConfidence(y.kind) == m;
      assert y in evidence;
    }
  }

  /** An item of unknown kind changes no score; it only makes a known claim partial. */
  lemma UnknownItem(claim: ClaimType, evidence: seq<Item>, e: Item, now: int)
    requires e.claim == claim && e.kind == UnknownKind
    ensures var before, r := Assessed(claim, evidence, now), Assessed(claim, evidence + [e], now);
            IsAssessed(r, before.score, if before.status == Known then Partial else before.status)
  {
    hide Stale, Strongest, Families, IDsOf, DefaultConfidence, Contradicted, HasUnknown, Climb;
    NoSupport(claim, evidence, e, now);
  }

  /** Once a supporting item has expired the score is at most 30, and a known claim partial. */
  lemma ExpiryCaps(claim: ClaimType, evidence: seq<Item>, now: int, later: int)
    requires !Stale(claim, evidence, now)
    ensures var before, r := Assessed(claim, evidence, now), Assessed(claim, evidence, later);
            if Stale(claim, evidence, later)
            then IsAssessed(r, Lower(before.score, 30), if before.status == Known then Partial else before.status)
            else r == before
  {
    hide Stale, Strongest, Families, IDsOf, DefaultConfidence, Contradicted, HasUnknown, Climb;
  }
}
