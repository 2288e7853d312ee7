/**
 Row-based binary log events with full row images, replay, and flashback.

 A server's data is a map from row identity (table and primary key) to row image. The `mysql`
 client and the undo run with `--force`, so an event that does not fit the data is skipped.
 */
module RowEvents {
  import opened GtidSets

  datatype RowId = RowId(table: string, key: string)
  type Image = seq<string>
  type Contents = map<RowId, Image>

  datatype Event =
    | Insert(id: RowId, after: Image)
    | Delete(id: RowId, before: Image)
    | Update(id: RowId, before: Image, newId: RowId, after: Image)

  datatype Transaction = Transaction(gtid: Gtid, events: seq<Event>)

  /** The event finds the before image it names, and room for the after image. */
  predicate Fits(e: Event, c: Contents) {
    match e
    case Insert(id, _) => id !in c
    case Delete(id, before) => id in c && c[id] == before
    case Update(id, before, newId, _) => id in c && c[id] == before && (newId == id || newId !in c)
  }

  function Apply(e: Event, c: Contents): Contents {
    if !Fits(e, c) then c else
    match e
    case Insert(id, after) => c[id := after]
    case Delete(id, _) => c - {id}
    case Update(id, _, newId, after) => (c - {id})[newId := after]
  }

  function ApplyAll(es: seq<Event>, c: Contents): Contents {
    if es == [] then c else ApplyAll(es[1..], Apply(es[0], c))
  }

  /** No event of the sequence is skipped. */
  predicate Clean(es: seq<Event>, c: Contents) {
    es == [] || (Fits(es[0], c) && Clean(es[1..], Apply(es[0], c)))
  }

  function Events(ts: seq<Transaction>): seq<Event> {
    if ts == [] then [] else ts[0].events + Events(ts[1..])
  }

  ghost function Gtids(ts: seq<Transaction>): set<Gtid> {
    set t | t in ts :: t.gtid
  }

  ghost predicate DistinctGtids(ts: seq<Transaction>) {
    forall i, j :: 0 <= i < j < |ts| ==> ts[i].gtid != ts[j].gtid
  }

  lemma {:induction false} ApplyConcat(a: seq<Event>, b: seq<Event>, c: Contents)
    ensures ApplyAll(a + b, c) == ApplyAll(b, ApplyAll(a, c))
    ensures Clean(a + b, c) <==> Clean(a, c) && Clean(b, ApplyAll(a, c))
  {
    if a == [] {
      assert a + b == b;
    } else {
      assert (a + b)[1..] == a[1..] + b;
      ApplyConcat(a[1..], b, Apply(a[0], c));
    }
  }

  lemma {:induction false} EventsConcat(a: seq<Transaction>, b: seq<Transaction>)
    ensures Events(a + b) == Events(a) + Events(b)
  {
    if a == [] {
      assert a + b == b;
    } else {
      assert (a + b)[1..] == a[1..] + b;
      EventsConcat(a[1..], b);
    }
  }

  lemma GtidsConcat(a: seq<Transaction>, b: seq<Transaction>)
    ensures Gtids(a + b) == Gtids(a) + Gtids(b)
  {
    assert forall t :: t in a + b <==> t in a || t in b;
  }

  lemma DistinctConcat(a: seq<Transaction>, b: seq<Transaction>)
    ensures DistinctGtids(a + b) <==> DistinctGtids(a) && DistinctGtids(b) && Gtids(a) !! Gtids(b)
  {
    var all := a + b;
    assert forall i :: 0 <= i < |a| ==> a[i] == all[i] && a[i].gtid in Gtids(a);
    assert forall i :: 0 <= i < |b| ==> b[i] == all[|a| + i] && b[i].gtid in Gtids(b);
    if Gtids(a) !! Gtids(b) && DistinctGtids(a) && DistinctGtids(b) {
      assert forall i, j :: 0 <= i < |a| <= j < |all| ==> all[i].gtid in Gtids(a) && all[j].gtid in Gtids(b);
    }
  }

  // ---------- flashback ----------

  function Inverse(e: Event): Event {
    match e
    case Insert(id, after) => Delete(id, after)
    case Delete(id, before) => Insert(id, before)
    case Update(id, before, newId, after) => Update(newId, after, id, before)
  }

  function InvertAll(es: seq<Event>): seq<Event> {
    if es == [] then [] else InvertAll(es[1..]) + [Inverse(es[0])]
  }

  /**
   The flashback of one file's transactions: newest first, events reversed and inverted, with the
   n-th transaction of the output given the dummy GTID `sid:n`.
   */
  function Flashback(ts: seq<Transaction>, sid: nat): (undo: seq<Transaction>)
    ensures |undo| == |ts|
    ensures forall i :: 0 <= i < |undo| ==> undo[i].gtid == Gtid(sid, i + 1)
  {
    if ts == [] then []
    else Flashback(ts[1..], sid) + [Transaction(Gtid(sid, |ts|), InvertAll(ts[0].events))]
  }

  lemma {:induction false} InvertConcat(a: seq<Event>, b: seq<Event>)
    ensures InvertAll(a + b) == InvertAll(b) + InvertAll(a)
  {
    if a == [] {
      assert a + b == b;
    } else {
      assert (a + b)[1..] == a[1..] + b;
      InvertConcat(a[1..], b);
    }
  }

  lemma {:induction false} FlashbackEvents(ts: seq<Transaction>, sid: nat)
    ensures Events(Flashback(ts, sid)) == InvertAll(Events(ts))
  {
    if ts != [] {
      var rest := Flashback(ts[1..], sid);
      var last := Transaction(Gtid(sid, |ts|), InvertAll(ts[0].events));
      FlashbackEvents(ts[1..], sid);
      EventsConcat(rest, [last]);
      assert Events([last]) == last.events + Events([]);
      InvertConcat(ts[0].events, Events(ts[1..]));
    }
  }

  lemma InverseUndoes(e: Event, c: Contents)
    requires Fits(e, c)
    ensures Fits(Inverse(e), Apply(e, c)) && Apply(Inverse(e), Apply(e, c)) == c
  {
  }

  /** Undoing a clean run of events, in reverse, is clean and restores the data exactly. */
  lemma {:induction false} InvertAllUndoes(es: seq<Event>, c: Contents)
    requires Clean(es, c)
    ensures Clean(InvertAll(es), ApplyAll(es, c))
    ensures ApplyAll(InvertAll(es), ApplyAll(es, c)) == c
  {
    if es != [] {
      var mid := Apply(es[0], c);
      InvertAllUndoes(es[1..], mid);
      ApplyConcat(InvertAll(es[1..]), [Inverse(es[0])], ApplyAll(es, c));
      InverseUndoes(es[0], c);
      assert [Inverse(es[0])][1..] == [];
    }
  }

  // ---------- the order of clean transactions does not matter ----------

  /** 1 when the data holds exactly this image under this identity, else 0. */
  function Holds(c: Contents, id: RowId, image: Image): int {
    if id in c && c[id] == image then 1 else 0
  }

  function Is(a: RowId, x: Image, b: RowId, y: Image): int {
    if a == b && x == y then 1 else 0
  }

  function Net(e: Event, id: RowId, image: Image): int {
    match e
    case Insert(i, after) => Is(i, after, id, image)
    case Delete(i, before) => -Is(i, before, id, image)
    case Update(i, before, j, after) => Is(j, after, id, image) - Is(i, before, id, image)
  }

  function NetAll(es: seq<Event>, id: RowId, image: Image): int {
    if es == [] then 0 else Net(es[0], id, image) + NetAll(es[1..], id, image)
  }

  function NetOf(ts: seq<Transaction>, id: RowId, image: Image): int {
    if ts == [] then 0 else NetAll(ts[0].events, id, image) + NetOf(ts[1..], id, image)
  }

  lemma {:induction false} CleanRunAddsNet(es: seq<Event>, c: Contents, id: RowId, image: Image)
    requires Clean(es, c)
    ensures Holds(ApplyAll(es, c), id, image) == Holds(c, id, image) + NetAll(es, id, image)
  {
    if es != [] {
      CleanRunAddsNet(es[1..], Apply(es[0], c), id, image);
    }
  }

  lemma {:induction false} NetConcat(a: seq<Event>, b: seq<Event>, id: RowId, image: Image)
    ensures NetAll(a + b, id, image) == NetAll(a, id, image) + NetAll(b, id, image)
  {
    if a == [] {
      assert a + b == b;
    } else {
      assert (a + b)[1..] == a[1..] + b;
      NetConcat(a[1..], b, id, image);
    }
  }

  lemma {:induction false} NetOfEvents(ts: seq<Transaction>, id: RowId, image: Image)
    ensures NetAll(Events(ts), id, image) == NetOf(ts, id, image)
  {
    if ts != [] {
      NetOfEvents(ts[1..], id, image);
      NetConcat(ts[0].events, Events(ts[1..]), id, image);
    }
  }

  lemma {:induction false} NetOfConcat(a: seq<Transaction>, b: seq<Transaction>, id: RowId, image: Image)
    ensures NetOf(a + b, id, image) == NetOf(a, id, image) + NetOf(b, id, image)
  {
    if a == [] {
      assert a + b == b;
    } else {
      assert (a + b)[1..] == a[1..] + b;
      NetOfConcat(a[1..], b, id, image);
    }
  }

  lemma {:induction false} NetOfPermutation(a: seq<Transaction>, b: seq<Transaction>, id: RowId, image: Image)
    requires multiset(a) == multiset(b)
    ensures NetOf(a, id, image) == NetOf(b, id, image)
    decreases |a|
  {
    if a == [] {
      assert |b| == |multiset(b)| == 0;
    } else {
      var t := a[0];
      assert t in multiset(a);
      var k :| 0 <= k < |b| && b[k] == t;
      var rest := b[..k] + b[k + 1..];
      assert b == b[..k] + ([t] + b[k + 1..]);
      assert a == [t] + a[1..];
      assert multiset(rest) == multiset(b) - multiset{t};
      assert multiset(a[1..]) == multiset(a) - multiset{t};
      NetOfPermutation(a[1..], rest, id, image);
      NetOfConcat(b[..k], b[k + 1..], id, image);
      NetOfConcat(b[..k], [t] + b[k + 1..], id, image);
      assert ([t] + b[k + 1..])[1..] == b[k + 1..];
    }
  }

  /** Data is determined by which images it holds under which identity. */
  lemma SameHoldsSameContents(x: Contents, y: Contents)
    requires forall id, image :: Holds(x, id, image) == Holds(y, id, image)
    ensures x == y
  {
    forall id | id in x ensures id in y && y[id] == x[id] {
      assert Holds(x, id, x[id]) == 1;
    }
    forall id | id in y ensures id in x {
      assert Holds(y, id, y[id]) == 1;
    }
  }

  /**
   Two runs of the same transactions from the same data, in any two orders, end in the same data
   provided neither run meets an event that does not fit.
   */
  lemma CleanOrdersAgree(a: seq<Transaction>, b: seq<Transaction>, c: Contents)
    requires multiset(a) == multiset(b)
    requires Clean(Events(a), c) && Clean(Events(b), c)
    ensures ApplyAll(Events(a), c) == ApplyAll(Events(b), c)
  {
    var x, y := ApplyAll(Events(a), c), ApplyAll(Events(b), c);
    forall id, image ensures Holds(x, id, image) == Holds(y, id, image) {
      CleanRunAddsNet(Events(a), c, id, image);
      CleanRunAddsNet(Events(b), c, id, image);
      NetOfEvents(a, id, image);
      NetOfEvents(b, id, image);
      NetOfPermutation(a, b, id, image);
    }
    SameHoldsSameContents(x, y);
  }
}
