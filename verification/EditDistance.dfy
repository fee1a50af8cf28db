/**
 The two edit distances of the option checks: the bounded one of src/config-guards.js, with its two
 early exits, and the plain one of src/adapter-options.js. Both are proved equal to the least cost of
 an edit script.
 */
module EditDistance {
  import opened Options

  // ---- edit scripts ---------------------------------------------------------------------------------

  datatype Edit<T> = Keep | Replace(with: T) | Delete | Insert(what: T)

  function Init<T>(s: seq<T>): seq<T>
    requires s != []
  {
    s[..|s| - 1]
  }

  function Last<T>(s: seq<T>): T
    requires s != []
  {
    s[|s| - 1]
  }

  /** What a script makes of a string, read from its end; None when it does not fit. */
  function Apply<T>(script: seq<Edit<T>>, a: seq<T>): Option<seq<T>> {
    if |script| == 0 then (if |a| == 0 then Some([]) else None)
    else match Last(script)
      case Insert(x) => Append(Apply(Init(script), a), x)
      case Keep => if |a| == 0 then None else Append(Apply(Init(script), Init(a)), Last(a))
      case Replace(x) => if |a| == 0 then None else Append(Apply(Init(script), Init(a)), x)
      case Delete => if |a| == 0 then None else Apply(Init(script), Init(a))
  }

  function Append<T>(r: Option<seq<T>>, x: T): Option<seq<T>> {
    if r.None? then None else Some(r.value + [x])
  }

  function Cost<T>(script: seq<Edit<T>>): nat {
    if |script| == 0 then 0 else Cost(Init(script)) + if Last(script).Keep? then 0 else 1
  }

  // ---- the distance -----------------------------------------------------------------------------------

  function Min(x: nat, y: nat): nat { if x < y then x else y }

  function Mismatch<T(==)>(x: T, y: T): nat { if x == y then 0 else 1 }

  /** Levenshtein's recurrence. */
  function Lev<T(==)>(a: seq<T>, b: seq<T>): nat
    decreases |a| + |b|
  {
    if a == [] then |b|
    else if b == [] then |a|
    else Min(Min(Lev(Init(a), b) + 1, Lev(a, Init(b)) + 1), Lev(Init(a), Init(b)) + Mismatch(Last(a), Last(b)))
  }

  /** No script is cheaper than the distance. */
  lemma {:induction false} LevIsLeast<T>(script: seq<Edit<T>>, a: seq<T>, b: seq<T>)
    requires Apply(script, a) == Some(b)
    ensures Lev(a, b) <= Cost(script)
    decreases |script|
  {
    if |script| != 0 {
      var rest := Apply(Init(script), if Last(script).Insert? then a else Init(a)).value;
      match Last(script)
      case Insert(x) =>
        LevIsLeast(Init(script), a, rest);
        assert Init(b) == rest;
      case Delete =>
        LevIsLeast(Init(script), Init(a), b);
      case Keep =>
        LevIsLeast(Init(script), Init(a), rest);
        assert Init(b) == rest;
      case Replace(x) =>
        LevIsLeast(Init(script), Init(a), rest);
        assert Init(b) == rest;
    }
  }

  lemma ScriptGrows<T>(script: seq<Edit<T>>, e: Edit<T>)
    ensures Init(script + [e]) == script && Last(script + [e]) == e
    ensures Cost(script + [e]) == Cost(script) + if e.Keep? then 0 else 1
  {
  }

  /** Some script costs exactly the distance. */
  lemma {:induction false} LevIsAttained<T>(a: seq<T>, b: seq<T>) returns (script: seq<Edit<T>>)
    ensures Apply(script, a) == Some(b) && Cost(script) == Lev(a, b)
    decreases |a| + |b|
  {
    if a == [] && b == [] {
      script := [];
    } else if b != [] && (a == [] || Lev(a, b) == Lev(a, Init(b)) + 1) {
      var rest := LevIsAttained(a, Init(b));
      ScriptGrows(rest, Insert(Last(b)));
      script := rest + [Insert(Last(b))];
      assert b == Init(b) + [Last(b)];
    } else if b == [] || Lev(a, b) == Lev(Init(a), b) + 1 {
      var rest := LevIsAttained(Init(a), b);
      ScriptGrows(rest, Delete);
      script := rest + [Delete];
    } else {
      var rest := LevIsAttained(Init(a), Init(b));
      var e := if Last(a) == Last(b) then Keep else Replace(Last(b));
      ScriptGrows(rest, e);
      script := rest + [e];
      assert b == Init(b) + [Last(b)];
    }
  }

  /** The distance is symmetric. */
  lemma {:induction false} LevIsSymmetric<T>(a: seq<T>, b: seq<T>)
    ensures Lev(a, b) == Lev(b, a)
    decreases |a| + |b|
  {
    if a != [] && b != [] {
      LevIsSymmetric(Init(a), b);
      LevIsSymmetric(a, Init(b));
      LevIsSymmetric(Init(a), Init(b));
    }
  }

  /** The distance is zero exactly on equal strings. */
  lemma {:induction false} LevIsZero<T>(a: seq<T>, b: seq<T>)
    ensures Lev(a, b) == 0 <==> a == b
    decreases |a| + |b|
  {
    if a != [] && b != [] {
      LevIsZero(Init(a), Init(b));
      assert a == Init(a) + [Last(a)] && b == Init(b) + [Last(b)];
    }
  }

  /** The first early exit: a difference in length is a lower bound. */
  lemma {:induction false} LevCoversLengths<T>(a: seq<T>, b: seq<T>)
    ensures |a| - |b| <= Lev(a, b) && |b| - |a| <= Lev(a, b)
    decreases |a| + |b|
  {
    if a != [] && b != [] {
      LevCoversLengths(Init(a), b);
      LevCoversLengths(a, Init(b));
      LevCoversLengths(Init(a), Init(b));
    }
  }

  // ---- the table ----------------------------------------------------------------------------------------

  /** Cell (i, j) of the table: the distance of two prefixes. */
  function Cell<T(==)>(a: seq<T>, b: seq<T>, i: nat, j: nat): nat
    requires i <= |a| && j <= |b|
  {
    Lev(a[..i], b[..j])
  }

  lemma CellStep<T>(a: seq<T>, b: seq<T>, i: nat, j: nat)
    requires 0 < i <= |a| && 0 < j <= |b|
    ensures Cell(a, b, i, j) == Min(Min(Cell(a, b, i - 1, j) + 1, Cell(a, b, i, j - 1) + 1),
                                    Cell(a, b, i - 1, j - 1) + Mismatch(a[i - 1], b[j - 1]))
  {
    assert Init(a[..i]) == a[..i - 1] && Init(b[..j]) == b[..j - 1];
  }

  // The cells of row i up to a column are all at least `least`.
  predicate AboveUpTo<T(==)>(a: seq<T>, b: seq<T>, i: nat, upTo: nat, least: nat)
    requires i <= |a| && upTo <= |b|
  {
    forall j | 0 <= j <= upTo :: least <= Cell(a, b, i, j)
  }

  predicate RowAbove<T(==)>(a: seq<T>, b: seq<T>, i: nat, least: nat)
    requires i <= |a|
  {
    AboveUpTo(a, b, i, |b|, least)
  }

  /** The second early exit: once a whole row is at least m, every later row is. */
  lemma {:induction false} RowsNeverFall<T>(a: seq<T>, b: seq<T>, i: nat, k: nat, least: nat)
    requires i <= k <= |a| && RowAbove(a, b, i, least)
    ensures RowAbove(a, b, k, least)
    decreases k - i
  {
    if i < k {
      NextRow(a, b, i, |b|, least);
      RowsNeverFall(a, b, i + 1, k, least);
    }
  }

  lemma {:induction false} NextRow<T>(a: seq<T>, b: seq<T>, i: nat, upTo: nat, least: nat)
    requires i < |a| && upTo <= |b| && RowAbove(a, b, i, least)
    ensures AboveUpTo(a, b, i + 1, upTo, least)
  {
    if upTo == 0 {
      assert least <= Cell(a, b, i, 0);
    } else {
      NextRow(a, b, i, upTo - 1, least);
      CellStep(a, b, i + 1, upTo);
      assert least <= Cell(a, b, i, upTo) && least <= Cell(a, b, i, upTo - 1);
    }
  }

  predicate IsRow<T(==)>(a: seq<T>, b: seq<T>, i: nat, row: seq<nat>)
    requires i <= |a|
  {
    |row| <= |b| + 1 && forall j | 0 <= j < |row| :: row[j] == Cell(a, b, i, j)
  }

  lemma RowMore<T>(a: seq<T>, b: seq<T>, i: nat, row: seq<nat>, value: nat)
    requires i <= |a| && |row| <= |b| && IsRow(a, b, i, row) && value == Cell(a, b, i, |row|)
    ensures IsRow(a, b, i, row + [value])
  {
  }

  // Array.from({ length: b.length + 1 }, (_, i) => i)
  method FirstRow<T(==)>(a: seq<T>, b: seq<T>) returns (row: seq<nat>)
    ensures |row| == |b| + 1 && IsRow(a, b, 0, row)
  {
    row := seq(|b| + 1, i => i);
    assert a[..0] == [];
  }

  // editDistance of src/adapter-options.js
  method PlainDistance<T(==)>(a: seq<T>, b: seq<T>) returns (d: nat)
    ensures d == Lev(a, b)
  {
    LevIsZero(a, b);
    if a == b { return 0; }
    var prev := FirstRow(a, b);
    var i := 1;
    while i <= |a|
      invariant 1 <= i <= |a| + 1
      invariant |prev| == |b| + 1 && IsRow(a, b, i - 1, prev)
    {
      var row: seq<nat> := [i];
      assert b[..0] == [];
      var j := 1;
      while j <= |b|
        invariant 1 <= j <= |b| + 1
        invariant |row| == j && IsRow(a, b, i, row)
      {
        CellStep(a, b, i, j);
        var value := Min(Min(prev[j] + 1, row[j - 1] + 1), prev[j - 1] + if a[i - 1] == b[j - 1] then 0 else 1);
        RowMore(a, b, i, row, value);
        row := row + [value];
        j := j + 1;
      }
      prev := row;
      i := i + 1;
    }
    assert a[..|a|] == a && b[..|b|] == b;
    return prev[|b|];
  }

  // boundedEditDistance of src/config-guards.js
  method BoundedDistance<T(==)>(a: seq<T>, b: seq<T>, bound: nat) returns (d: Option<nat>)
    ensures d == if Lev(a, b) <= bound then Some(Lev(a, b)) else None
  {
    LevCoversLengths(a, b);
    assert a[..|a|] == a && b[..|b|] == b;
    if (if |a| > |b| then |a| - |b| else |b| - |a|) > bound { return None; }
    var previous := FirstRow(a, b);
    var i := 1;
    while i <= |a|
      invariant 1 <= i <= |a| + 1
      invariant |previous| == |b| + 1 && IsRow(a, b, i - 1, previous)
    {
      var row: seq<nat> := [i];
      assert b[..0] == [];
      var rowMin := i;
      var j := 1;
      while j <= |b|
        invariant 1 <= j <= |b| + 1
        invariant |row| == j && IsRow(a, b, i, row)
        invariant forall k | 0 <= k < j :: rowMin <= row[k]
      {
        CellStep(a, b, i, j);
        var cost := if a[i - 1] == b[j - 1] then 0 else 1;
        var value := Min(Min(previous[j] + 1, row[j - 1] + 1), previous[j - 1] + cost);
        RowMore(a, b, i, row, value);
        row := row + [value];
        if value < rowMin { rowMin := value; }
        j := j + 1;
      }
      if rowMin > bound {
        assert RowAbove(a, b, i, rowMin);
        RowsNeverFall(a, b, i, |a|, rowMin);
        assert rowMin <= Cell(a, b, |a|, |b|);
        return None;
      }
      previous := row;
      i := i + 1;
    }
    return if previous[|b|] <= bound then Some(previous[|b|]) else None;
  }
}
