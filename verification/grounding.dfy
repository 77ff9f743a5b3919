/**
 `ScreenGroundingEngine.resolve`: ranking of screen elements over the reals. Splitting text into
 terms and folding case are parameters.
 */
module Grounding {
  import opened Wrappers
  import opened Ordering

  /** Width and height are never negative. */
  datatype Bounds = Bounds(x: int, y: int, width: nat, height: nat)

  datatype Element = Element(
    elementId: string,
    role: string,
    caption: string,
    text: string,
    bounds: Option<Bounds>,
    enabled: bool,
    visible: bool,
    source: string,
    confidence: real)

  datatype Query = Query(text: string, role: string, relation: string, anchor: string, ordinal: int)

  datatype Lexicon = Lexicon(terms: string -> set<string>, fold: string -> string)

  datatype Scored = Scored(score: real, item: Element)

  /** `IndexError` is what an ordinal below minus one raises when the list is too short for it. */
  datatype Resolution = Target(item: Element, confidence: real, coordinates: Option<(int, int)>) | NoTarget | IndexError

  const AMBIGUITY := 0.05
  const NO_BOUNDS := 1000000000

  // ---- Scoring -------------------------------------------------------

  function Priority(source: string): int {
    if source == "user_guidance" then 7
    else if source == "accessibility" then 6
    else if source == "dom" then 5
    else if source == "application" then 4
    else if source == "ocr" then 3
    else if source == "visual" then 2
    else if source == "controller" then 1
    else 0
  }

  function Abs(r: real): real {
    if r < 0.0 then -r else r
  }

  function Related(item: Element, anchor: Element, relation: string): bool {
    if item.bounds.None? || anchor.bounds.None? then false
    else
      var b, a := item.bounds.value, anchor.bounds.value;
      var ix, iy := b.x as real + b.width as real / 2.0, b.y as real + b.height as real / 2.0;
      var ax, ay := a.x as real + a.width as real / 2.0, a.y as real + a.height as real / 2.0;
      if relation == "below" then iy > ay
      else if relation == "above" then iy < ay
      else if relation == "left" then ix < ax
      else if relation == "right" then ix > ax
      else if relation == "inside" then
        b.x >= a.x && b.y >= a.y && b.x + b.width <= a.x + a.width && b.y + b.height <= a.y + a.height
      else if relation == "near" then Abs(ix - ax) + Abs(iy - ay) < 300.0
      else if relation == "next to" then Abs(ix - ax) + Abs(iy - ay) < 200.0
      else false
  }

  function Semantic(lex: Lexicon, q: Query, item: Element): real {
    var needle := lex.terms(q.text);
    var haystack := lex.terms(item.role + " " + item.caption + " " + item.text);
    var size := if |needle| > 1 then |needle| else 1;
    |needle * haystack| as real / size as real
  }

  function Clamp(r: real): real {
    if r < 0.0 then 0.0 else if r > 1.0 then 1.0 else r
  }

  function Score(lex: Lexicon, q: Query, item: Element, anchor: Option<Element>): real {
    var base := 0.55 * Semantic(lex, q, item) + 0.35 * item.confidence + 0.1 * (Priority(item.source) as real / 6.0);
    var bonus := if q.relation == "" || anchor.None? then 0.0
                 else if Related(item, anchor.value, q.relation) then 0.2
                 else -0.4;
    Clamp(base + bonus)
  }

  /** The first of the elements that share most terms with the caption. */
  function BestAnchor(lex: Lexicon, caption: string, elements: seq<Element>): Option<Element> {
    if elements == [] then None
    else
      var before, last := BestAnchor(lex, caption, elements[..|elements| - 1]), elements[|elements| - 1];
      if before.Some? && Overlap(lex, caption, last) <= Overlap(lex, caption, before.value) then before else Some(last)
  }

  function Overlap(lex: Lexicon, caption: string, item: Element): nat {
    |lex.terms(caption) * lex.terms(item.caption + " " + item.text)|
  }

  function AnchorOf(lex: Lexicon, q: Query, elements: seq<Element>): Option<Element> {
    if q.anchor == "" then None else BestAnchor(lex, q.anchor, elements)
  }

  /** The anchor is the first of the elements that share most terms with its caption. */
  lemma {:induction false} BestAnchorIsFirstMaximum(lex: Lexicon, caption: string, elements: seq<Element>)
    returns (k: nat)
    requires elements != []
    ensures k < |elements| && BestAnchor(lex, caption, elements) == Some(elements[k])
    ensures forall i | 0 <= i < |elements| :: Overlap(lex, caption, elements[i]) <= Overlap(lex, caption, elements[k])
    ensures forall i | 0 <= i < k :: Overlap(lex, caption, elements[i]) < Overlap(lex, caption, elements[k])
  {
    hide Overlap;
    var before, last := elements[..|elements| - 1], |elements| - 1;
    if before == [] {
      k := 0;
    } else {
      k := BestAnchorIsFirstMaximum(lex, caption, before);
      assert forall i | 0 <= i < last :: elements[i] == before[i];
      if Overlap(lex, caption, elements[last]) > Overlap(lex, caption, before[k]) {
        k := last;
      }
    }
  }

  // ---- Candidates ----------------------------------------------------

  predicate IsCandidate(lex: Lexicon, q: Query, item: Element) {
    item.visible && item.enabled && (q.role == "" || lex.fold(item.role) == lex.fold(q.role))
  }

  function Eligible(lex: Lexicon, q: Query, elements: seq<Element>, anchor: Option<Element>,
                    minimum: real): seq<Scored>
  {
    if elements == [] then []
    else
      var item := elements[0];
      var score := Score(lex, q, item, anchor);
      (if IsCandidate(lex, q, item) && score >= minimum then [Scored(score, item)] else [])
      + Eligible(lex, q, elements[1..], anchor, minimum)
  }

  /** Descending by score, then by the priority of the source; equals keep their order. */
  predicate RankLeq(a: Scored, b: Scored) {
    a.score > b.score || (a.score == b.score && Priority(a.item.source) >= Priority(b.item.source))
  }

  function ReadingKey(s: Scored): (int, int) {
    match s.item.bounds
    case None => (NO_BOUNDS, NO_BOUNDS)
    case Some(b) => (b.y, b.x)
  }

  predicate KeyLeq(a: (int, int), b: (int, int)) {
    a.0 < b.0 || (a.0 == b.0 && a.1 <= b.1)
  }

  predicate ReadingLeq(a: Scored, b: Scored) {
    KeyLeq(ReadingKey(a), ReadingKey(b))
  }

  // ---- Resolution ----------------------------------------------------

  function Hit(s: Scored): Resolution {
    Target(s.item, s.score,
           match s.item.bounds
           case None => None
           case Some(b) => Some((b.x + b.width / 2, b.y + b.height / 2)))
  }

  /** A list index of Python: negative ones count from the end. */
  function PythonIndex(length: nat, index: int): Option<nat> {
    if 0 <= index < length then Some(index) else if index < 0 && 0 <= length + index then Some(length + index) else None
  }

  function Pick(ranked: seq<Scored>, ordinal: int): Resolution {
    if ranked == [] then NoTarget
    else if ordinal != 0 then
      var ordered := Sort(ranked, ReadingLeq);
      if ordinal != -1 && ordinal > |ordered| then NoTarget
      else
        var i := PythonIndex(|ordered|, if ordinal == -1 then -1 else ordinal - 1);
        if i.None? then IndexError else Hit(ordered[i.value])
    else if |ranked| > 1 && Abs(ranked[0].score - ranked[1].score) < AMBIGUITY then NoTarget
    else Hit(ranked[0])
  }

  function Resolve(lex: Lexicon, q: Query, elements: seq<Element>, minimum: real): Resolution {
    Pick(Sort(Eligible(lex, q, elements, AnchorOf(lex, q, elements), minimum), RankLeq), q.ordinal)
  }

  lemma EligibleStep(done: seq<Scored>, lex: Lexicon, q: Query, elements: seq<Element>, anchor: Option<Element>,
                     minimum: real, i: nat)
    requires i < |elements|
    ensures
      var score := Score(lex, q, elements[i], anchor);
      done + Eligible(lex, q, elements[i..], anchor, minimum)
      == (if IsCandidate(lex, q, elements[i]) && score >= minimum then done + [Scored(score, elements[i])] else done)
         + Eligible(lex, q, elements[i + 1..], anchor, minimum)
  {
    hide Score, IsCandidate;
    assert elements[i..][1..] == elements[i + 1..];
  }

  method ScoreAll(lex: Lexicon, q: Query, elements: seq<Element>, anchor: Option<Element>, minimum: real)
    returns (scored: seq<Scored>)
    ensures scored == Eligible(lex, q, elements, anchor, minimum)
  {
    assert Eligible(lex, q, [], anchor, minimum) == [];
    hide Score, IsCandidate, Eligible;
    scored := [];
    var i := 0;
    while i < |elements|
      invariant i <= |elements|
      invariant scored + Eligible(lex, q, elements[i..], anchor, minimum) == Eligible(lex, q, elements, anchor, minimum)
    {
      EligibleStep(scored, lex, q, elements, anchor, minimum, i);
      var score := Score(lex, q, elements[i], anchor);
      if IsCandidate(lex, q, elements[i]) && score >= minimum {
        scored := scored + [Scored(score, elements[i])];
      }
      i := i + 1;
    }
    assert elements[i..] == [];
  }

  method PickTarget(ranked: seq<Scored>, ordinal: int) returns (r: Resolution)
    ensures r == Pick(ranked, ordinal)
  {
    hide Sort;
    if ranked == [] {
      return NoTarget;
    }
    if ordinal != 0 {
      var geometrically := Sort(ranked, ReadingLeq);
      if ordinal != -1 && ordinal > |geometrically| {
        return NoTarget;
      }
      var index := PythonIndex(|geometrically|, if ordinal == -1 then -1 else ordinal - 1);
      if index.None? {
        return IndexError;
      }
      return Hit(geometrically[index.value]);
    }
    if |ranked| > 1 && Abs(ranked[0].score - ranked[1].score) < AMBIGUITY {
      return NoTarget;
    }
    return Hit(ranked[0]);
  }

  /** `resolve`, with its local list of candidates filled, sorted and sorted again. */
  method ResolveTarget(lex: Lexicon, q: Query, elements: seq<Element>, minimum: real) returns (r: Resolution)
    ensures r == Resolve(lex, q, elements, minimum)
  {
    hide Eligible, Sort, BestAnchor, Pick;
    var anchor := if q.anchor == "" then None else BestAnchor(lex, q.anchor, elements);
    var scored := ScoreAll(lex, q, elements, anchor, minimum);
    scored := Sort(scored, RankLeq);
    r := PickTarget(scored, q.ordinal);
  }

  lemma ScoresAreConfidences(lex: Lexicon, q: Query, item: Element, anchor: Option<Element>)
    ensures 0.0 <= Score(lex, q, item, anchor) <= 1.0
  {
  }

  lemma RankIsPreorder()
    ensures TotalPreorder(RankLeq)
  {
  }

  lemma ReadingIsPreorder()
    ensures TotalPreorder(ReadingLeq)
  {
  }

  // ---- Without an ordinal: no ambiguity ------------------------------

  /** It beats every other eligible element by at least 0.05. */
  ghost predicate Winner(eligible: multiset<Scored>, s: Scored) {
    s in eligible && forall other | other in eligible - multiset{s} :: s.score - other.score >= 0.05
  }

  lemma WinnerIsUnique(eligible: multiset<Scored>, a: Scored, b: Scored)
    requires Winner(eligible, a) && Winner(eligible, b)
    ensures a == b
  {
    assert a != b ==> b in eligible - multiset{a};
    assert a != b ==> a in eligible - multiset{b};
  }

  lemma WinnerIsFirst(ranked: seq<Scored>, s: Scored)
    requires SortedBy(ranked, RankLeq) && Winner(multiset(ranked), s)
    ensures ranked != [] && s == ranked[0]
  {
    assert s in ranked;
    var first := ranked[0];
    assert s != first ==> first in multiset(ranked) - multiset{s};
    assert first.score >= s.score;
  }

  lemma RestOfRanked(ranked: seq<Scored>)
    requires ranked != []
    ensures multiset(ranked) - multiset{ranked[0]} == multiset(ranked[1..])
  {
    assert ranked == [ranked[0]] + ranked[1..];
  }

  lemma FirstWinsExactly(ranked: seq<Scored>)
    requires SortedBy(ranked, RankLeq) && ranked != []
    ensures Winner(multiset(ranked), ranked[0])
            <==> |ranked| == 1 || ranked[0].score - ranked[1].score >= 0.05
  {
    RestOfRanked(ranked);
    var rest := ranked[1..];
    forall other: Scored | other in multiset(rest) ensures ranked[1].score >= other.score {
      assert other in rest;
    }
    assert |ranked| > 1 ==> ranked[1] == rest[0] && rest[0] in multiset(rest);
  }

  /** The first of the ranked elements is picked exactly when it is the winner, and no other can be. */
  lemma PickFindsWinner(ranked: seq<Scored>, s: Scored)
    requires SortedBy(ranked, RankLeq)
    ensures Winner(multiset(ranked), s) ==> Pick(ranked, 0) == Hit(s)
    ensures Pick(ranked, 0).Target? ==> Winner(multiset(ranked), ranked[0]) && Pick(ranked, 0) == Hit(ranked[0])
  {
    if ranked != [] {
      FirstWinsExactly(ranked);
    }
    if Winner(multiset(ranked), s) {
      WinnerIsFirst(ranked, s);
    }
  }

  /**
   A query without an ordinal yields a target exactly when some eligible element is a clear winner,
   and then it yields that one: `s` for every winner `s`, and `w` for every target.
   */
  lemma ResolvesExactlyToWinner(lex: Lexicon, q: Query, elements: seq<Element>, minimum: real, s: Scored)
    returns (w: Scored)
    requires q.ordinal == 0
    ensures
      var eligible := multiset(Eligible(lex, q, elements, AnchorOf(lex, q, elements), minimum));
      var r := Resolve(lex, q, elements, minimum);
      && (Winner(eligible, s) ==> r == Hit(s))
      && (r.Target? ==> Winner(eligible, w) && r == Hit(w))
      && !r.IndexError?
  {
    hide Eligible, Winner;
    var all := Eligible(lex, q, elements, AnchorOf(lex, q, elements), minimum);
    var ranked := Sort(all, RankLeq);
    RankIsPreorder();
    SortSorted(all, RankLeq);
    PickFindsWinner(ranked, s);
    w := if ranked == [] then s else ranked[0];
  }

  // ---- The order of the elements does not matter ---------------------

  lemma {:induction false} EligibleCount(lex: Lexicon, q: Query, elements: seq<Element>, anchor: Option<Element>,
                                         minimum: real, s: Scored)
    ensures multiset(Eligible(lex, q, elements, anchor, minimum))[s]
         == if s.score == Score(lex, q, s.item, anchor) && IsCandidate(lex, q, s.item) && s.score >= minimum
            then multiset(elements)[s.item] else 0
  {
    hide Score, IsCandidate;
    if elements != [] {
      EligibleCount(lex, q, elements[1..], anchor, minimum, s);
      assert elements == [elements[0]] + elements[1..];
    }
  }

  lemma EligibleIgnoresOrder(lex: Lexicon, q: Query, a: seq<Element>, b: seq<Element>, anchor: Option<Element>,
                             minimum: real)
    requires multiset(a) == multiset(b)
    ensures multiset(Eligible(lex, q, a, anchor, minimum)) == multiset(Eligible(lex, q, b, anchor, minimum))
  {
    var ma, mb := multiset(Eligible(lex, q, a, anchor, minimum)), multiset(Eligible(lex, q, b, anchor, minimum));
    forall s ensures ma[s] == mb[s] {
      EligibleCount(lex, q, a, anchor, minimum, s);
      EligibleCount(lex, q, b, anchor, minimum, s);
    }
  }

  /** The candidates with their scores, in no order. */
  function Candidates(lex: Lexicon, q: Query, elements: seq<Element>, minimum: real): multiset<Scored> {
    multiset(Eligible(lex, q, elements, AnchorOf(lex, q, elements), minimum))
  }

  /** `item` shares more terms with the caption than every other of the elements. */
  ghost predicate ClearMaximum(lex: Lexicon, caption: string, elements: seq<Element>, item: Element) {
    item in elements
    && forall other | other in elements && other != item :: Overlap(lex, caption, other) < Overlap(lex, caption, item)
  }

  /** The query relates to no anchor, or one element shares more terms with its name than every other. */
  ghost predicate AnchorSettled(lex: Lexicon, q: Query, elements: seq<Element>) {
    || q.anchor == "" || q.relation == "" || elements == []
    || exists item :: ClearMaximum(lex, q.anchor, elements, item)
  }

  lemma ClearMaximumIsAnchor(lex: Lexicon, caption: string, elements: seq<Element>, item: Element)
    requires ClearMaximum(lex, caption, elements, item)
    ensures BestAnchor(lex, caption, elements) == Some(item)
  {
    hide Overlap, BestAnchor;
    var k := BestAnchorIsFirstMaximum(lex, caption, elements);
    var i :| 0 <= i < |elements| && elements[i] == item;
    assert Overlap(lex, caption, elements[i]) <= Overlap(lex, caption, elements[k]);
  }

  lemma {:induction false} WithoutRelation(lex: Lexicon, q: Query, elements: seq<Element>, anchor: Option<Element>,
                                           other: Option<Element>, minimum: real)
    requires q.relation == ""
    ensures Eligible(lex, q, elements, anchor, minimum) == Eligible(lex, q, elements, other, minimum)
  {
    hide IsCandidate;
    if elements != [] {
      WithoutRelation(lex, q, elements[1..], anchor, other, minimum);
      assert Score(lex, q, elements[0], anchor) == Score(lex, q, elements[0], other);
    }
  }

  lemma CandidatesIgnoreOrder(lex: Lexicon, q: Query, a: seq<Element>, b: seq<Element>, minimum: real)
    requires multiset(a) == multiset(b)
    requires AnchorSettled(lex, q, a) || AnchorOf(lex, q, a) == AnchorOf(lex, q, b)
    ensures Candidates(lex, q, a, minimum) == Candidates(lex, q, b, minimum)
  {
    hide Eligible, BestAnchor, Overlap;
    var anchor := AnchorOf(lex, q, a);
    EligibleIgnoresOrder(lex, q, a, b, anchor, minimum);
    if q.anchor != "" && q.relation == "" {
      WithoutRelation(lex, q, b, anchor, AnchorOf(lex, q, b), minimum);
    } else if item :| ClearMaximum(lex, q.anchor, a, item) {
      MultisetFacts(a, b);
      assert forall x :: x in a <==> x in b;
      ClearMaximumIsAnchor(lex, q.anchor, a, item);
      ClearMaximumIsAnchor(lex, q.anchor, b, item);
    } else if a == [] {
      MultisetFacts(a, b);
    }
  }

  /** For a query without an ordinal, any ordering of the elements with the same candidates gives the same answer. */
  lemma SameCandidatesSameAnswer(lex: Lexicon, q: Query, a: seq<Element>, b: seq<Element>, minimum: real)
    requires q.ordinal == 0 && Candidates(lex, q, a, minimum) == Candidates(lex, q, b, minimum)
    ensures Resolve(lex, q, a, minimum) == Resolve(lex, q, b, minimum)
  {
    hide Eligible, Winner, Pick, AnchorOf;
    var nobody := Scored(0.0, Element("", "", "", "", None, false, false, "", 0.0));
    var winner := ResolvesExactlyToWinner(lex, q, a, minimum, nobody);
    var other := ResolvesExactlyToWinner(lex, q, b, minimum, winner);
    var again := ResolvesExactlyToWinner(lex, q, a, minimum, other);
  }

  /**
   For a query without an ordinal, any ordering of the elements gives the same answer, unless several
   elements tie for the anchor that the query relates to.
   */
  lemma AnswerIgnoresOrder(lex: Lexicon, q: Query, a: seq<Element>, b: seq<Element>, minimum: real)
    requires q.ordinal == 0 && multiset(a) == multiset(b)
    requires AnchorSettled(lex, q, a)
    ensures Resolve(lex, q, a, minimum) == Resolve(lex, q, b, minimum)
  {
    hide Candidates, AnchorSettled, Resolve;
    CandidatesIgnoreOrder(lex, q, a, b, minimum);
    SameCandidatesSameAnswer(lex, q, a, b, minimum);
  }

  /** It is enough that both orderings put the same anchor first among those that tie. */
  lemma SameAnchorSameAnswer(lex: Lexicon, q: Query, a: seq<Element>, b: seq<Element>, minimum: real)
    requires q.ordinal == 0 && multiset(a) == multiset(b)
    requires AnchorOf(lex, q, a) == AnchorOf(lex, q, b)
    ensures Resolve(lex, q, a, minimum) == Resolve(lex, q, b, minimum)
  {
    hide Candidates, AnchorSettled, Resolve, AnchorOf;
    CandidatesIgnoreOrder(lex, q, a, b, minimum);
    SameCandidatesSameAnswer(lex, q, a, b, minimum);
  }

  function Boxed(role: string, y: int): Element {
    Element("", role, "save", "", Some(Bounds(0, y, 10, 10)), true, true, "dom", 1.0)
  }

  /** Two labels tie for the anchor and one button stands between them: whichever label comes first decides. */
  lemma TieChangesAnswer()
    ensures
      var lex := Lexicon(s => {"save"}, s => s);
      var q := Query("save", "button", "below", "save", 0);
      var top, button, bottom := Boxed("label", 0), Boxed("button", 50), Boxed("label", 100);
      && Resolve(lex, q, [top, bottom, button], DEFAULT_MINIMUM) == Hit(Scored(1.0, button))
      && Resolve(lex, q, [bottom, top, button], DEFAULT_MINIMUM) == NoTarget
  {
    FirstLabelDecides(0, 100, 50);
    FirstLabelDecides(100, 0, 50);
  }

  lemma FirstLabelDecides(first: int, second: int, y: int)
    ensures
      var lex := Lexicon(s => {"save"}, s => s);
      var q := Query("save", "button", "below", "save", 0);
      var button := Boxed("button", y);
      Resolve(lex, q, [Boxed("label", first), Boxed("label", second), button], DEFAULT_MINIMUM)
      == if y > first then Hit(Scored(1.0, button)) else NoTarget
  {
    var lex := Lexicon(s => {"save"}, s => s);
    var q := Query("save", "button", "below", "save", 0);
    var x, z, button := Boxed("label", first), Boxed("label", second), Boxed("button", y);
    TiedAnchor(lex, "save", x, z, button);
    OneTermScore(q, button, x);
    assert !IsCandidate(lex, q, x) && !IsCandidate(lex, q, z) && IsCandidate(lex, q, button);
    BelowExactly(first, y);
    OnlyThird(lex, q, x, z, button, Some(x));
    PickOne(Scored(1.0, button));
    hide BestAnchor, Score, Eligible, Related, IsCandidate, Hit, Pick, Sort, Overlap;
  }

  lemma BelowExactly(first: int, y: int)
    ensures Related(Boxed("button", y), Boxed("label", first), "below") <==> y > first
  {
  }

  lemma PickOne(s: Scored)
    ensures Pick(Sort([s], RankLeq), 0) == Hit(s) && Pick(Sort([], RankLeq), 0) == NoTarget
  {
    assert [s][1..] == [];
  }

  lemma OneTermScore(q: Query, item: Element, anchor: Element)
    requires q.relation != "" && item.source == "dom" && item.confidence == 1.0
    ensures
      var score := Score(Lexicon(s => {"save"}, s => s), q, item, Some(anchor));
      if Related(item, anchor, q.relation) then score == 1.0 else score < DEFAULT_MINIMUM
  {
    hide Related;
    assert {"save"} * {"save"} == {"save"};
  }

  lemma TiedAnchor(lex: Lexicon, caption: string, x: Element, y: Element, z: Element)
    requires Overlap(lex, caption, x) == Overlap(lex, caption, y) == Overlap(lex, caption, z)
    ensures BestAnchor(lex, caption, [x, y, z]) == Some(x)
  {
    hide Overlap, BestAnchor;
    var elements := [x, y, z];
    var k := BestAnchorIsFirstMaximum(lex, caption, elements);
    assert elements[0] == x && elements[k] in {x, y, z};
  }

  lemma OnlyThird(lex: Lexicon, q: Query, x: Element, y: Element, z: Element, anchor: Option<Element>)
    requires !IsCandidate(lex, q, x) && !IsCandidate(lex, q, y) && IsCandidate(lex, q, z)
    ensures
      var score := Score(lex, q, z, anchor);
      Eligible(lex, q, [x, y, z], anchor, DEFAULT_MINIMUM)
      == if score >= DEFAULT_MINIMUM then [Scored(score, z)] else []
  {
    hide IsCandidate, Score;
    assert [x, y, z][1..] == [y, z] && [y, z][1..] == [z] && [z][1..] == [];
    var score := Score(lex, q, z, anchor);
    assert Eligible(lex, q, [], anchor, DEFAULT_MINIMUM) == [];
    assert Eligible(lex, q, [z], anchor, DEFAULT_MINIMUM)
        == if score >= DEFAULT_MINIMUM then [Scored(score, z)] else [];
    assert Eligible(lex, q, [y, z], anchor, DEFAULT_MINIMUM) == Eligible(lex, q, [z], anchor, DEFAULT_MINIMUM);
  }

  // ---- With an ordinal: the k-th in reading order --------------------

  /** Some arrangement of the eligible elements in reading order. */
  ghost predicate InReadingOrder(eligible: seq<Scored>, ordered: seq<Scored>) {
    multiset(ordered) == multiset(eligible) && SortedBy(ordered, ReadingLeq)
  }

  /** The place in reading order that an ordinal stands for among `size` elements. */
  function PlaceOf(size: nat, ordinal: int): int {
    if ordinal == -1 then size - 1 else if ordinal >= 1 then ordinal - 1 else size + ordinal - 1
  }

  /**
   With an ordinal `k` the answer is the k-th eligible element in reading order and the last one for
   -1; -2 stands for the third from the end, -3 for the fourth, and so on, and below the list an
   index error is raised. Beyond the list, and without eligible elements, there is no answer.
   */
  lemma OrdinalPicksReadingOrder(lex: Lexicon, q: Query, elements: seq<Element>, minimum: real)
    returns (ordered: seq<Scored>)
    requires q.ordinal != 0
    ensures
      var eligible := Eligible(lex, q, elements, AnchorOf(lex, q, elements), minimum);
      var r, place := Resolve(lex, q, elements, minimum), PlaceOf(|eligible|, q.ordinal);
      && InReadingOrder(eligible, ordered) && |ordered| == |eligible|
      && (if eligible == [] || place >= |eligible| then r == NoTarget
          else if place >= 0 then r == Hit(ordered[place])
          else r == IndexError)
  {
    hide Eligible, Sort, InReadingOrder;
    var eligible := Eligible(lex, q, elements, AnchorOf(lex, q, elements), minimum);
    var ranked := Sort(eligible, RankLeq);
    ordered := Sort(ranked, ReadingLeq);
    ReadingIsPreorder();
    SortSorted(ranked, ReadingLeq);
    assert |ordered| == |ranked| == |eligible|;
    Arranged(eligible, ranked, ordered);
  }

  lemma Arranged(eligible: seq<Scored>, ranked: seq<Scored>, ordered: seq<Scored>)
    requires multiset(ranked) == multiset(eligible) && multiset(ordered) == multiset(ranked)
             && SortedBy(ordered, ReadingLeq)
    ensures InReadingOrder(eligible, ordered)
  {
  }

  /** An ordinal below minus one counts from the end, and fails exactly when the list is too short. */
  lemma FailsExactlyBelowList(lex: Lexicon, q: Query, elements: seq<Element>, minimum: real)
    ensures
      var size := |Eligible(lex, q, elements, AnchorOf(lex, q, elements), minimum)|;
      Resolve(lex, q, elements, minimum).IndexError? <==> q.ordinal < -1 && 0 < size < 1 - q.ordinal
  {
    if q.ordinal == 0 {
      var nobody := Scored(0.0, Element("", "", "", "", None, false, false, "", 0.0));
      var w := ResolvesExactlyToWinner(lex, q, elements, minimum, nobody);
    } else {
      var ordered := OrdinalPicksReadingOrder(lex, q, elements, minimum);
    }
  }

  /** One visible element and the ordinal -2: the list is too short, and resolution raises an index error. */
  lemma SingleElementFails(lex: Lexicon, item: Element, text: string)
    requires item.visible && item.enabled
    ensures Resolve(lex, Query(text, "", "", "", -2), [item], 0.0) == IndexError
  {
    var q := Query(text, "", "", "", -2);
    var score := Score(lex, q, item, None);
    ScoresAreConfidences(lex, q, item, None);
    assert [item][1..] == [] && Eligible(lex, q, [item][1..], None, 0.0) == [];
    assert Eligible(lex, q, [item], None, 0.0) == [Scored(score, item)];
    FailsExactlyBelowList(lex, q, [item], 0.0);
  }

  function Keys(s: seq<Scored>): (r: seq<(int, int)>)
    ensures |r| == |s| && forall i | 0 <= i < |s| :: r[i] == ReadingKey(s[i])
  {
    seq(|s|, i requires 0 <= i < |s| => ReadingKey(s[i]))
  }

  lemma PlaceOfHead(a: seq<Scored>, b: seq<Scored>) returns (k: nat)
    requires a != [] && multiset(a) == multiset(b)
    ensures k < |b| && b[k] == a[0]
  {
    MultisetFacts(a, b);
    assert a[0] in b;
    k :| k < |b| && b[k] == a[0];
  }

  lemma RemoveOne(a: seq<Scored>, b: seq<Scored>, k: nat)
    requires a != [] && k < |b| && b[k] == a[0] && multiset(a) == multiset(b)
    ensures multiset(a[1..]) == multiset(b[..k] + b[k + 1..])
  {
    assert a == [a[0]] + a[1..];
    assert b == b[..k] + [b[k]] + b[k + 1..];
    assert multiset(a[1..]) == multiset(a) - multiset{a[0]};
    assert multiset(b[..k] + b[k + 1..]) == multiset(b) - multiset{b[k]};
  }

  lemma KeysAround(front: seq<Scored>, s: Scored, back: seq<Scored>)
    ensures multiset(Keys(front + [s] + back)) == multiset{ReadingKey(s)} + multiset(Keys(front + back))
  {
    hide ReadingKey;
    assert Keys(front + [s] + back) == Keys(front) + [ReadingKey(s)] + Keys(back);
    assert Keys(front + back) == Keys(front) + Keys(back);
  }

  lemma KeysWithout(s: seq<Scored>, k: nat)
    requires k < |s|
    ensures multiset(Keys(s)) == multiset{ReadingKey(s[k])} + multiset(Keys(s[..k] + s[k + 1..]))
  {
    hide Keys, ReadingKey;
    KeysAround(s[..k], s[k], s[k + 1..]);
    assert s[..k] + [s[k]] + s[k + 1..] == s;
  }

  lemma KeysStep(a: seq<Scored>, b: seq<Scored>, k: nat)
    requires a != [] && k < |b| && b[k] == a[0]
    requires multiset(Keys(a[1..])) == multiset(Keys(b[..k] + b[k + 1..]))
    ensures multiset(Keys(a)) == multiset(Keys(b))
  {
    hide Keys, ReadingKey;
    KeysWithout(a, 0);
    KeysWithout(b, k);
    assert a[..0] + a[1..] == a[1..];
  }

  lemma BothEmpty(a: seq<Scored>, b: seq<Scored>)
    requires a == [] && multiset(a) == multiset(b)
    ensures b == a
  {
    assert |multiset(b)| == |b|;
  }

  lemma {:induction false} KeysIgnoreOrder(a: seq<Scored>, b: seq<Scored>)
    requires multiset(a) == multiset(b)
    ensures multiset(Keys(a)) == multiset(Keys(b))
    decreases |a|
  {
    hide Keys, ReadingKey;
    if a == [] {
      BothEmpty(a, b);
    } else {
      var k := PlaceOfHead(a, b);
      RemoveOne(a, b, k);
      KeysIgnoreOrder(a[1..], b[..k] + b[k + 1..]);
      KeysStep(a, b, k);
    }
  }

  lemma ReadingPositionsAreUnique(eligible: seq<Scored>, a: seq<Scored>, b: seq<Scored>)
    requires InReadingOrder(eligible, a) && InReadingOrder(eligible, b)
    ensures Keys(a) == Keys(b)
  {
    KeysIgnoreOrder(a, b);
    SortedUnique(Keys(a), Keys(b), KeyLeq);
  }

  predicate SamePosition(a: Resolution, b: Resolution) {
    (a.Target? <==> b.Target?) && (a.IndexError? <==> b.IndexError?)
    && (a.Target? ==> ReadingKey(Scored(a.confidence, a.item)) == ReadingKey(Scored(b.confidence, b.item)))
  }

  /** With an ordinal, whatever order the elements come in, the answer stands at the same place of the screen. */
  lemma OrdinalPlaceIgnoresOrder(lex: Lexicon, q: Query, a: seq<Element>, b: seq<Element>, minimum: real)
    requires q.ordinal != 0 && multiset(a) == multiset(b)
    requires AnchorSettled(lex, q, a) || AnchorOf(lex, q, a) == AnchorOf(lex, q, b)
    ensures SamePosition(Resolve(lex, q, a, minimum), Resolve(lex, q, b, minimum))
  {
    hide Eligible, Resolve, AnchorOf, AnchorSettled, InReadingOrder;
    CandidatesIgnoreOrder(lex, q, a, b, minimum);
    var ea := Eligible(lex, q, a, AnchorOf(lex, q, a), minimum);
    var eb := Eligible(lex, q, b, AnchorOf(lex, q, b), minimum);
    assert |ea| == |multiset(ea)| == |multiset(eb)| == |eb|;
    var oa := OrdinalPicksReadingOrder(lex, q, a, minimum);
    var ob := OrdinalPicksReadingOrder(lex, q, b, minimum);
    SameArrangements(ea, eb, ob);
    ReadingPositionsAreUnique(ea, oa, ob);
    assert forall i | 0 <= i < |oa| :: ReadingKey(oa[i]) == Keys(oa)[i] == ReadingKey(ob[i]);
  }

  lemma SameArrangements(a: seq<Scored>, b: seq<Scored>, ordered: seq<Scored>)
    requires multiset(a) == multiset(b) && InReadingOrder(b, ordered)
    ensures InReadingOrder(a, ordered)
  {
  }

  // ---- What the weights are for --------------------------------------

  const DEFAULT_MINIMUM := 0.65

  ghost predicate ProperConfidences(elements: seq<Element>) {
    forall i | 0 <= i < |elements| :: 0.0 <= elements[i].confidence <= 1.0
  }

  lemma SemanticBounds(lex: Lexicon, q: Query, item: Element)
    ensures 0.0 <= Semantic(lex, q, item) <= 1.0
    ensures Semantic(lex, q, item) == 0.0 <==>
              lex.terms(q.text) * lex.terms(item.role + " " + item.caption + " " + item.text) == {}
  {
    var needle := lex.terms(q.text);
    var common := needle * lex.terms(item.role + " " + item.caption + " " + item.text);
    var size := if |needle| > 1 then |needle| else 1;
    SubsetIsSmaller(common, needle);
    FractionBounds(|common|, size);
    assert |common| == 0 <==> common == {};
  }

  lemma SubsetIsSmaller(a: set<string>, b: set<string>)
    requires a <= b
    ensures |a| <= |b|
  {
    assert b == a + (b - a);
  }

  lemma FractionBounds(a: nat, b: nat)
    requires a <= b && b >= 1
    ensures 0.0 <= a as real / b as real <= 1.0
    ensures a as real / b as real == 0.0 <==> a == 0
  {
    var f := a as real / b as real;
    assert f * (b as real) == a as real;
  }

  lemma {:induction false} EligibleMember(lex: Lexicon, q: Query, elements: seq<Element>, anchor: Option<Element>,
                                          minimum: real, s: Scored)
    requires s in Eligible(lex, q, elements, anchor, minimum)
    ensures s.item in elements && s.score == Score(lex, q, s.item, anchor) && s.score >= minimum
    ensures IsCandidate(lex, q, s.item)
  {
    hide Score, IsCandidate;
    if s !in Eligible(lex, q, elements[1..], anchor, minimum) {
      assert s.item == elements[0];
    } else {
      EligibleMember(lex, q, elements[1..], anchor, minimum, s);
    }
  }

  lemma TargetIsEligible(lex: Lexicon, q: Query, elements: seq<Element>, minimum: real)
    requires Resolve(lex, q, elements, minimum).Target?
    ensures
      var r := Resolve(lex, q, elements, minimum);
      Scored(r.confidence, r.item) in Eligible(lex, q, elements, AnchorOf(lex, q, elements), minimum)
  {
    hide Eligible, Sort;
    var eligible := Eligible(lex, q, elements, AnchorOf(lex, q, elements), minimum);
    var ranked := Sort(eligible, RankLeq);
    var ordered := Sort(ranked, ReadingLeq);
    assert forall x :: x in ordered <==> x in ranked;
    assert forall x :: x in ranked <==> x in eligible;
  }

  /** Each relation by the bounds of the two elements; twice the middle of each, so that nothing is rounded. */
  lemma RelatedExactly(item: Element, anchor: Element, relation: string)
    ensures item.bounds.None? || anchor.bounds.None? ==> !Related(item, anchor, relation)
    ensures item.bounds.Some? && anchor.bounds.Some? ==>
      var b, a := item.bounds.value, anchor.bounds.value;
      var dx, dy := (2 * b.x + b.width) - (2 * a.x + a.width), (2 * b.y + b.height) - (2 * a.y + a.height);
      var distance := (if dx < 0 then -dx else dx) + (if dy < 0 then -dy else dy);
      && (relation == "below" ==> (Related(item, anchor, relation) <==> dy > 0))
      && (relation == "above" ==> (Related(item, anchor, relation) <==> dy < 0))
      && (relation == "left" ==> (Related(item, anchor, relation) <==> dx < 0))
      && (relation == "right" ==> (Related(item, anchor, relation) <==> dx > 0))
      && (relation == "inside" ==>
            (Related(item, anchor, relation) <==>
               && a.x <= b.x && b.x + b.width <= a.x + a.width
               && a.y <= b.y && b.y + b.height <= a.y + a.height))
      && (relation == "near" ==> (Related(item, anchor, relation) <==> distance < 600))
      && (relation == "next to" ==> (Related(item, anchor, relation) <==> distance < 400))
      && (relation !in {"below", "above", "left", "right", "inside", "near", "next to"} ==>
            !Related(item, anchor, relation))
  {
  }

  /** The sources by trust, most trusted first; any other source counts nothing. */
  lemma SourcesRank(source: string)
    ensures Priority("user_guidance") > Priority("accessibility") > Priority("dom") > Priority("application")
            > Priority("ocr") > Priority("visual") > Priority("controller") > Priority("") == 0
    ensures Priority("user_guidance") == 7
    ensures source !in {"user_guidance", "accessibility", "dom", "application", "ocr", "visual", "controller"} ==>
              Priority(source) == 0
  {
  }

  /**
   A score in sixtieths: 33 for the share of the query's terms that the element has, 21 for its confidence,
   one for each step of its source's priority, and 12 more or 24 less as it is related to the anchor or not.
   */
  lemma ScoreWeighs(lex: Lexicon, q: Query, item: Element, anchor: Option<Element>)
    ensures
      var needle := lex.terms(q.text);
      var shared := |needle * lex.terms(item.role + " " + item.caption + " " + item.text)|;
      var size := if |needle| > 1 then |needle| else 1;
      var bonus := if q.relation == "" || anchor.None? then 0
                   else if Related(item, anchor.value, q.relation) then 12 else -24;
      var sum := 33.0 * (shared as real / size as real) + 21.0 * item.confidence
                 + Priority(item.source) as real + bonus as real;
      Score(lex, q, item, anchor) == if sum < 0.0 then 0.0 else if sum > 60.0 then 1.0 else sum / 60.0
  {
    hide Priority, Related;
    WeightsInSixtieths(Semantic(lex, q, item), item.confidence, Priority(item.source) as real);
  }

  lemma WeightsInSixtieths(share: real, confidence: real, priority: real)
    ensures 60.0 * (0.55 * share + 0.35 * confidence + 0.1 * (priority / 6.0))
         == 33.0 * share + 21.0 * confidence + priority
  {
  }

  /** Visible, enabled and of the role that the query asks for, if it asks for one. */
  ghost predicate CanBeMeant(lex: Lexicon, q: Query, item: Element) {
    item.visible && item.enabled && (q.role != "" ==> lex.fold(item.role) == lex.fold(q.role))
  }

  /**
   A target is one of the elements, can be meant, scores at least the minimum, and is pointed at in the middle
   of its bounds.
   */
  lemma TargetIsGenuine(lex: Lexicon, q: Query, elements: seq<Element>, minimum: real)
    ensures
      var r := Resolve(lex, q, elements, minimum);
      r.Target? ==>
        && r.item in elements && CanBeMeant(lex, q, r.item)
        && r.confidence == Score(lex, q, r.item, AnchorOf(lex, q, elements)) && r.confidence >= minimum
        && (r.item.bounds.None? ==> r.coordinates == None)
        && (r.item.bounds.Some? ==>
              var b := r.item.bounds.value;
              r.coordinates == Some((b.x + b.width / 2, b.y + b.height / 2)))
  {
    hide Eligible, Sort, BestAnchor, Score;
    var anchor, r := AnchorOf(lex, q, elements), Resolve(lex, q, elements, minimum);
    if r.Target? {
      var ranked := Sort(Eligible(lex, q, elements, anchor, minimum), RankLeq);
      PickHits(ranked, q.ordinal);
      TargetIsEligible(lex, q, elements, minimum);
      EligibleMember(lex, q, elements, anchor, minimum, Scored(r.confidence, r.item));
    }
    hide Resolve;
  }

  lemma PickHits(ranked: seq<Scored>, ordinal: int)
    ensures
      var r := Pick(ranked, ordinal);
      r.Target? ==>
        && (r.item.bounds.None? ==> r.coordinates == None)
        && (r.item.bounds.Some? ==>
              var b := r.item.bounds.value;
              r.coordinates == Some((b.x + b.width / 2, b.y + b.height / 2)))
  {
    hide Sort;
  }

  /**
   Without an ordinal, an element that stands once on the screen, can be meant and scores at least the minimum
   and 0.05 more than every other such element is the target.
   */
  lemma ClearTargetIsFound(lex: Lexicon, q: Query, elements: seq<Element>, minimum: real, item: Element)
    requires q.ordinal == 0 && multiset(elements)[item] == 1 && CanBeMeant(lex, q, item)
    requires Score(lex, q, item, AnchorOf(lex, q, elements)) >= minimum
    requires forall other | other in elements && other != item && CanBeMeant(lex, q, other)
               && Score(lex, q, other, AnchorOf(lex, q, elements)) >= minimum ::
               Score(lex, q, item, AnchorOf(lex, q, elements))
               - Score(lex, q, other, AnchorOf(lex, q, elements)) >= 0.05
    ensures
      var r := Resolve(lex, q, elements, minimum);
      r.Target? && r.item == item && r.confidence == Score(lex, q, item, AnchorOf(lex, q, elements))
  {
    hide Score, BestAnchor, Eligible, Resolve;
    var anchor := AnchorOf(lex, q, elements);
    var s := Scored(Score(lex, q, item, anchor), item);
    var all := multiset(Eligible(lex, q, elements, anchor, minimum));
    EligibleCount(lex, q, elements, anchor, minimum, s);
    forall other | other in all - multiset{s} ensures s.score - other.score >= 0.05 {
      EligibleCount(lex, q, elements, anchor, minimum, other);
      assert other.item in multiset(elements);
      assert other != s;
      assert other.item != item;
    }
    assert Winner(all, s);
    var w := ResolvesExactlyToWinner(lex, q, elements, minimum, s);
  }

  /**
   Reading order is from top to bottom and in a row from left to right; what has no bounds comes after
   everything above a billion.
   */
  lemma ReadsTopDown(eligible: seq<Scored>, ordered: seq<Scored>)
    requires InReadingOrder(eligible, ordered)
    ensures forall i, j | 0 <= i < j < |ordered| ::
              var a, b := ordered[i].item.bounds, ordered[j].item.bounds;
              && (a.Some? && b.Some? ==>
                    a.value.y < b.value.y || (a.value.y == b.value.y && a.value.x <= b.value.x))
              && (a.None? && b.Some? ==> b.value.y >= 1000000000)
              && (a.Some? && b.None? ==> a.value.y <= 1000000000)
  {
    assert forall i, j | 0 <= i < j < |ordered| :: ReadingLeq(ordered[i], ordered[j]);
  }

  /** The anchor by the terms of its caption and text, spelled out. */
  lemma AnchorSharesMost(lex: Lexicon, caption: string, elements: seq<Element>) returns (k: nat)
    requires elements != []
    ensures k < |elements| && BestAnchor(lex, caption, elements) == Some(elements[k])
    ensures forall i | 0 <= i < |elements| ::
              var shared := |lex.terms(caption) * lex.terms(elements[i].caption + " " + elements[i].text)|;
              var most := |lex.terms(caption) * lex.terms(elements[k].caption + " " + elements[k].text)|;
              if i < k then shared < most else shared <= most
  {
    k := BestAnchorIsFirstMaximum(lex, caption, elements);
    hide BestAnchor;
  }

  /**
   With the default minimum confidence, a query that relates to an anchor never yields an element
   that is not so related: the penalty outweighs everything else.
   */
  lemma TargetIsRelated(lex: Lexicon, q: Query, elements: seq<Element>, minimum: real)
    requires minimum >= DEFAULT_MINIMUM && ProperConfidences(elements)
    requires q.relation != "" && AnchorOf(lex, q, elements).Some?
    ensures
      var r := Resolve(lex, q, elements, minimum);
      r.Target? ==> Related(r.item, AnchorOf(lex, q, elements).value, q.relation)
  {
    hide Resolve, Eligible, Semantic, Related, BestAnchor;
    var r, anchor := Resolve(lex, q, elements, minimum), AnchorOf(lex, q, elements);
    if r.Target? {
      TargetIsEligible(lex, q, elements, minimum);
      EligibleMember(lex, q, elements, anchor, minimum, Scored(r.confidence, r.item));
      SemanticBounds(lex, q, r.item);
      assert Priority(r.item.source) <= 7;
    }
  }

  /**
   With the default minimum confidence, a query without a relation, or whose anchor is not found,
   never yields an element that shares no term with it.
   */
  lemma TargetSharesTerms(lex: Lexicon, q: Query, elements: seq<Element>, minimum: real)
    requires minimum >= DEFAULT_MINIMUM && ProperConfidences(elements)
    requires q.relation == "" || AnchorOf(lex, q, elements).None?
    ensures
      var r := Resolve(lex, q, elements, minimum);
      r.Target? ==> lex.terms(q.text) * lex.terms(r.item.role + " " + r.item.caption + " " + r.item.text) != {}
  {
    hide Resolve, Eligible, Semantic, Related, BestAnchor;
    var r, anchor := Resolve(lex, q, elements, minimum), AnchorOf(lex, q, elements);
    if r.Target? {
      TargetIsEligible(lex, q, elements, minimum);
      EligibleMember(lex, q, elements, anchor, minimum, Scored(r.confidence, r.item));
      SemanticBounds(lex, q, r.item);
      assert Priority(r.item.source) <= 7;
    }
  }
}
