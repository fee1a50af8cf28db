/**
 "Did you mean" of src/config-guards.js and src/adapter-options.js. Lower-casing is the engine's and
 is a parameter; a set of keys is the sequence its iteration visits.
 */
module OptionHints {
  import opened Options
  import opened EditDistance

  type Lowering = string -> string

  predicate SameFolded(key: string, candidate: string, lower: Lowering) {
    lower(candidate) == lower(key)
  }

  function Distance(key: string, candidate: string, lower: Lowering): nat {
    Lev(lower(key), lower(candidate))
  }

  /** Entry i of known is the first one equal to key up to case. */
  ghost predicate FirstFolded(key: string, known: seq<string>, lower: Lowering, i: nat) {
    i < |known| && SameFolded(key, known[i], lower) && forall j | 0 <= j < i :: !SameFolded(key, known[j], lower)
  }

  /** Entry i is eligible, within the limit, no farther than any eligible entry and nearer than the earlier ones. */
  ghost predicate Nearest(key: string, known: seq<string>, lower: Lowering, shortest: nat, limit: nat, i: nat) {
    && i < |known| && |known[i]| >= shortest && Distance(key, known[i], lower) <= limit
    && (forall j | 0 <= j < |known| && |known[j]| >= shortest ::
          Distance(key, known[i], lower) <= Distance(key, known[j], lower))
    && (forall j | 0 <= j < i && |known[j]| >= shortest ::
          Distance(key, known[i], lower) < Distance(key, known[j], lower))
  }

  ghost predicate NoneNear(key: string, known: seq<string>, lower: Lowering, shortest: nat, limit: nat) {
    forall j | 0 <= j < |known| && |known[j]| >= shortest :: Distance(key, known[j], lower) > limit
  }

  // suggestOptionKey
  method SuggestOptionKey(key: string, known: seq<string>, lower: Lowering) returns (best: Option<string>)
    ensures (exists i: nat :: FirstFolded(key, known, lower, i))
      ==> best.Some? && exists i: nat :: FirstFolded(key, known, lower, i) && best.value == known[i]
    ensures (forall i: nat :: !FirstFolded(key, known, lower, i)) && |key| < 4 ==> best.None?
    ensures (forall i: nat :: !FirstFolded(key, known, lower, i)) && |key| >= 4
      ==> if best.Some? then exists i: nat :: Nearest(key, known, lower, 4, 2, i) && best.value == known[i]
          else NoneNear(key, known, lower, 4, 2)
  {
    for i := 0 to |known|
      invariant forall j | 0 <= j < i :: !SameFolded(key, known[j], lower)
    {
      if lower(known[i]) == lower(key) {
        assert FirstFolded(key, known, lower, i);
        return Some(known[i]);
      }
    }
    if |key| < 4 { return None; }
    best := None;
    var bestDistance := 3;
    ghost var at := 0;
    for i := 0 to |known|
      invariant bestDistance <= 3 && (best.None? <==> bestDistance == 3)
      invariant forall j | 0 <= j < i && |known[j]| >= 4 :: bestDistance <= Distance(key, known[j], lower)
      invariant best.Some? ==> at < i && |known[at]| >= 4 && best.value == known[at]
      invariant best.Some? ==> bestDistance == Distance(key, known[at], lower)
      invariant best.Some? ==>
        forall j | 0 <= j < at && |known[j]| >= 4 :: bestDistance < Distance(key, known[j], lower)
    {
      if |known[i]| >= 4 {
        var distance := BoundedDistance(lower(key), lower(known[i]), 2);
        if distance.Some? && distance.value < bestDistance {
          best := Some(known[i]);
          bestDistance := distance.value;
          at := i;
        }
      }
    }
    if best.Some? { assert Nearest(key, known, lower, 4, 2, at); }
  }

  // suggestOption: wsKeys are the keys of the nested section.
  method SuggestOption(name: string, known: seq<string>, wsKeys: set<string>, lower: Lowering)
    returns (best: Option<string>)
    ensures (exists i: nat :: FirstFolded(name, known, lower, i))
      ==> best.Some? && exists i: nat :: FirstFolded(name, known, lower, i) && best.value == known[i]
    ensures
      var limit := if |name| <= 6 then 2 else 3;
      (forall i: nat :: !FirstFolded(name, known, lower, i)) ==>
        if NoneNear(name, known, lower, 0, limit)
        then best == (if name in wsKeys then Some("websocket." + name) else None)
        else best.Some? && exists i: nat :: Nearest(name, known, lower, 0, limit, i) && best.value == known[i]
  {
    for i := 0 to |known|
      invariant forall j | 0 <= j < i :: !SameFolded(name, known[j], lower)
    {
      if lower(known[i]) == lower(name) {
        assert FirstFolded(name, known, lower, i);
        return Some(known[i]);
      }
    }
    var limit := if |name| <= 6 then 2 else 3;
    best := None;
    var bestDistance: Option<nat> := None;     // None is Infinity
    ghost var at := 0;
    for i := 0 to |known|
      invariant bestDistance.Some? <==> i > 0
      invariant bestDistance.Some? ==> at < i && best == Some(known[at])
      invariant bestDistance.Some? ==> bestDistance.value == Distance(name, known[at], lower)
      invariant bestDistance.Some? ==> forall j | 0 <= j < i :: bestDistance.value <= Distance(name, known[j], lower)
      invariant bestDistance.Some? ==> forall j | 0 <= j < at :: bestDistance.value < Distance(name, known[j], lower)
    {
      var d := PlainDistance(lower(name), lower(known[i]));
      if bestDistance.None? || d < bestDistance.value {
        bestDistance := Some(d);
        best := Some(known[i]);
        at := i;
      }
    }
    if bestDistance.Some? && bestDistance.value <= limit {
      assert Nearest(name, known, lower, 0, limit, at);
      return best;
    }
    return if name in wsKeys then Some("websocket." + name) else None;
  }
}
