/**
 GTID sets as the rewind script handles them: text, compared as text.

 A printed set such as `a:1-5:7-9,b:3` is the list of its ranges,
 [Range(a,1,5), Range(a,7,9), Range(b,3,3)]; a source UUID is a number, in UUID order.
 `Subtract` is the server's gtid_subtract(), which also tidies up its first argument.
 */
module GtidSets {

  datatype Gtid = Gtid(sid: nat, number: nat)

  datatype Range = Range(sid: nat, lo: nat, hi: nat) {
    predicate Valid() { 1 <= lo <= hi }

    /** Every GTID of this range comes before `that`, and the two do not touch. */
    predicate Before(that: Range) { sid < that.sid || (sid == that.sid && hi + 1 < that.lo) }

    predicate StartsNoLater(that: Range) { sid < that.sid || (sid == that.sid && lo <= that.lo) }

    predicate SameStart(that: Range) { sid == that.sid && lo == that.lo }

    predicate Covers(g: Gtid) { g.sid == sid && lo <= g.number <= hi }

    ghost function Points(): (r: set<Gtid>)
      ensures forall g :: g in r <==> Covers(g)
    {
      var r := set n: nat | lo <= n <= hi :: Gtid(sid, n);
      assert forall g: Gtid :: Covers(g) ==> g == Gtid(sid, g.number);
      r
    }
  }

  type GtidText = seq<Range>

  predicate AllValid(t: GtidText) { forall i :: 0 <= i < |t| ==> t[i].Valid() }

  /** The form in which the server prints a set: sorted, merged, no range twice. */
  predicate Canonical(t: GtidText) {
    t == [] || (t[0].Valid() && Canonical(t[1..]) && (|t| > 1 ==> t[0].Before(t[1])))
  }

  /** The set a text stands for. */
  ghost function Denote(t: GtidText): set<Gtid> {
    if t == [] then {} else t[0].Points() + Denote(t[1..])
  }

  predicate Member(t: GtidText, g: Gtid)
    ensures Member(t, g) <==> g in Denote(t)
  {
    t != [] && (t[0].Covers(g) || Member(t[1..], g))
  }

  // ---------- union and difference with one range ----------

  function Add(t: GtidText, r: Range): (u: GtidText)
    requires Canonical(t) && r.Valid()
    ensures Canonical(u) && Denote(u) == Denote(t) + r.Points()
    ensures u != [] && u[0].StartsNoLater(r) && (t != [] ==> u[0].StartsNoLater(t[0]))
    ensures u[0].SameStart(r) || (t != [] && u[0].SameStart(t[0]))
  {
    if t == [] then
      [r]
    else if r.Before(t[0]) then
      [r] + t
    else if t[0].Before(r) then
      var rest := Add(t[1..], r);
      var u := [t[0]] + rest;
      assert u[1..] == rest;
      u
    else
      var lo := if r.lo < t[0].lo then r.lo else t[0].lo;
      var hi := if r.hi < t[0].hi then t[0].hi else r.hi;
      var both := Range(r.sid, lo, hi);
      assert both.Points() == r.Points() + t[0].Points();
      Add(t[1..], both)
  }

  function Remove(t: GtidText, r: Range): (u: GtidText)
    requires Canonical(t) && r.Valid()
    ensures Canonical(u) && Denote(u) == Denote(t) - r.Points()
    ensures u != [] ==> t != [] && t[0].StartsNoLater(u[0])
  {
    if t == [] then
      []
    else if t[0].sid < r.sid || (t[0].sid == r.sid && t[0].hi < r.lo) then
      var rest := Remove(t[1..], r);
      var u := [t[0]] + rest;
      assert u[1..] == rest;
      u
    else if r.sid < t[0].sid || r.hi < t[0].lo then
      BeyondFirst(t);
      t
    else
      var rest := Remove(t[1..], r);
      var cut := if r.hi < t[0].hi then [Range(r.sid, r.hi + 1, t[0].hi)] else [];
      var u := if t[0].lo < r.lo then [Range(r.sid, t[0].lo, r.lo - 1)] + (cut + rest) else cut + rest;
      CutFirst(t, r, rest, cut, u);
      u
  }

  lemma Prepend(r: Range, rest: GtidText)
    requires r.Valid() && Canonical(rest) && (rest != [] ==> r.Before(rest[0]))
    ensures Canonical([r] + rest) && Denote([r] + rest) == r.Points() + Denote(rest)
  {
    assert ([r] + rest)[1..] == rest;
  }

  /** Removing a range that overlaps the first one leaves up to two pieces of the first. */
  lemma CutFirst(t: GtidText, r: Range, rest: GtidText, cut: GtidText, u: GtidText)
    requires Canonical(t) && r.Valid() && t != [] && t[0].sid == r.sid && r.lo <= t[0].hi && t[0].lo <= r.hi
    requires Canonical(rest) && Denote(rest) == Denote(t[1..]) - r.Points()
    requires rest != [] ==> |t| > 1 && t[1].StartsNoLater(rest[0])
    requires cut == if r.hi < t[0].hi then [Range(r.sid, r.hi + 1, t[0].hi)] else []
    requires u == if t[0].lo < r.lo then [Range(r.sid, t[0].lo, r.lo - 1)] + (cut + rest) else cut + rest
    ensures Canonical(u) && Denote(u) == Denote(t) - r.Points()
    ensures u != [] ==> t[0].StartsNoLater(u[0])
  {
    var first := t[0];
    var left := Range(r.sid, first.lo, if r.lo > 0 then r.lo - 1 else 0);
    var right := Range(r.sid, r.hi + 1, first.hi);
    var l, m, d, p := left.Points(), right.Points(), Denote(rest), first.Points() - r.Points();
    assert Denote(t) - r.Points() == p + d;
    assert p == l + m;
    hide Denote, Range.Points;
    if cut == [] {
      assert cut + rest == rest;
      assert m == {};
    } else {
      Prepend(right, rest);
    }
    assert Denote(cut + rest) == m + d;
    if first.lo < r.lo {
      Prepend(left, cut + rest);
    } else {
      assert l == {};
    }
  }

  /** Everything after the first range of a canonical text lies beyond a gap. */
  lemma BeyondFirst(t: GtidText)
    requires Canonical(t) && t != []
    ensures forall g :: g in Denote(t[1..]) ==> t[0].sid < g.sid || (t[0].sid == g.sid && t[0].hi + 1 < g.number)
  {
    if |t| > 1 {
      BeyondFirst(t[1..]);
    }
  }

  /** The set with one more GTID, as after one more transaction. */
  function AddGtid(t: GtidText, g: Gtid): (u: GtidText)
    requires Canonical(t) && g.number >= 1
    ensures Canonical(u) && Denote(u) == Denote(t) + {g}
  {
    var r := Range(g.sid, g.number, g.number);
    assert r.Points() == {g};
    Add(t, r)
  }

  // ---------- the server's functions ----------

  /** The set named by a text in any order, with overlaps: its ranges are added one by one. */
  function Build(raw: GtidText): (u: GtidText)
    requires AllValid(raw)
    ensures Canonical(u) && Denote(u) == Denote(raw)
  {
    if raw == [] then [] else Add(Build(raw[1..]), raw[0])
  }

  function RemoveAll(t: GtidText, rs: GtidText): (u: GtidText)
    requires Canonical(t) && AllValid(rs)
    ensures Canonical(u) && Denote(u) == Denote(t) - Denote(rs)
    decreases rs
  {
    if rs == [] then t else RemoveAll(Remove(t, rs[0]), rs[1..])
  }

  /** gtid_subtract(a, b) */
  function Subtract(a: GtidText, b: GtidText): (u: GtidText)
    requires AllValid(a) && AllValid(b)
    ensures Canonical(u) && Denote(u) == Denote(a) - Denote(b)
  {
    RemoveAll(Build(a), b)
  }

  lemma {:induction false} CanonicalIsValid(t: GtidText)
    requires Canonical(t)
    ensures AllValid(t)
  {
    if t != [] {
      CanonicalIsValid(t[1..]);
      assert forall i :: 0 < i < |t| ==> t[i] == t[1..][i - 1];
    }
  }

  // ---------- comparing texts ----------

  /** The number after a canonical text's first range is missing from the set. */
  lemma FirstRangeEndsNoLater(a: GtidText, b: GtidText)
    requires Canonical(a) && a != [] && b != []
    requires Denote(a) == Denote(b) && a[0].SameStart(b[0])
    ensures b[0].hi <= a[0].hi
  {
    BeyondFirst(a);
    assert Gtid(a[0].sid, a[0].hi + 1) !in Denote(a);
    assert !b[0].Covers(Gtid(a[0].sid, a[0].hi + 1));
  }

  /** Two canonical texts are the same text exactly when they stand for the same set. */
  lemma {:induction false} SameTextIffSameSet(a: GtidText, b: GtidText)
    requires Canonical(a) && Canonical(b)
    ensures a == b <==> Denote(a) == Denote(b)
  {
    if Denote(a) == Denote(b) {
      if a == [] || b == [] {
        EmptyTextIffEmptySet(a);
        EmptyTextIffEmptySet(b);
      } else {
        BeyondFirst(a);
        BeyondFirst(b);
        assert Gtid(a[0].sid, a[0].lo) in Denote(b) && Gtid(b[0].sid, b[0].lo) in Denote(a);
        assert a[0].SameStart(b[0]);
        FirstRangeEndsNoLater(a, b);
        FirstRangeEndsNoLater(b, a);
        assert Denote(a[1..]) == Denote(a) - a[0].Points();
        assert Denote(b[1..]) == Denote(b) - b[0].Points();
        SameTextIffSameSet(a[1..], b[1..]);
        assert a == [a[0]] + a[1..] && b == [b[0]] + b[1..];
      }
    }
  }

  /** `-z "$gtid"` is the test for the empty set. */
  lemma EmptyTextIffEmptySet(t: GtidText)
    requires Canonical(t)
    ensures t == [] <==> Denote(t) == {}
  {
    if t != [] {
      assert Gtid(t[0].sid, t[0].lo) in Denote(t);
    }
  }

  /** The script's gtid_subtract: one query to the server. The text printed is determined by the set. */
  method GtidSubtract(a: GtidText, b: GtidText) returns (u: GtidText)
    requires AllValid(a) && AllValid(b)
    ensures Canonical(u) && AllValid(u) && Denote(u) == Denote(a) - Denote(b)
  {
    u := Subtract(a, b);
    CanonicalIsValid(u);
  }

  /** `subtract == errant`: subtracting a set changes nothing exactly when the two are disjoint. */
  lemma UnchangedIffDisjoint(errant: GtidText, other: set<Gtid>, difference: GtidText)
    requires Canonical(errant) && Canonical(difference)
    requires Denote(difference) == Denote(errant) - other
    ensures difference == errant <==> Denote(errant) !! other
  {
    SameTextIffSameSet(difference, errant);
  }

  /** `subtract == ""`: nothing is left exactly when the first set is within the second. */
  lemma EmptyIffSubset(a: set<Gtid>, b: set<Gtid>, difference: GtidText)
    requires Canonical(difference) && Denote(difference) == a - b
    ensures difference == [] <==> a <= b
  {
    EmptyTextIffEmptySet(difference);
    if a - b == {} {
      assert forall g :: g in a ==> g !in a - b;
    }
  }
}
