/**
 gh-mysql-rewind: find the binary logs that hold the errant transactions, undo them newest file
 first, and reset the server's GTID history so that it can replicate again.
 */
module Rewind {
  import opened GtidSets
  import opened RowEvents

  /** A binary log: its Previous-GTIDs header and the transactions after it. */
  datatype BinlogFile = BinlogFile(previous: GtidText, trxs: seq<Transaction>)

  datatype SearchResult =
    | Found(reverted: GtidText, binlogs: seq<nat>)
    | HeaderLacksErrant
    | NoMatch

  /** All transactions of a list of files, oldest first. */
  ghost function Trxs(files: seq<BinlogFile>): seq<Transaction> {
    if files == [] then [] else Trxs(files[..|files| - 1]) + files[|files| - 1].trxs
  }

  /** Each header names the set logged in all earlier files, including `lost` ones no longer there. */
  ghost predicate HeadersAgree(files: seq<BinlogFile>, lost: set<Gtid>) {
    forall i :: 0 <= i < |files| ==>
      AllValid(files[i].previous) && Denote(files[i].previous) == lost + Gtids(Trxs(files[..i]))
  }

  lemma {:induction false} TrxsConcat(a: seq<BinlogFile>, b: seq<BinlogFile>)
    ensures Trxs(a + b) == Trxs(a) + Trxs(b)
  {
    if b == [] {
      assert a + b == a;
    } else {
      assert (a + b)[..|a + b| - 1] == a + b[..|b| - 1];
      TrxsConcat(a, b[..|b| - 1]);
    }
  }

  lemma TrxsSplit(files: seq<BinlogFile>, k: nat)
    requires k <= |files|
    ensures Trxs(files) == Trxs(files[..k]) + Trxs(files[k..])
    ensures Gtids(Trxs(files)) == Gtids(Trxs(files[..k])) + Gtids(Trxs(files[k..]))
  {
    assert files == files[..k] + files[k..];
    TrxsConcat(files[..k], files[k..]);
    GtidsConcat(Trxs(files[..k]), Trxs(files[k..]));
  }

  lemma PrefixIsClean(files: seq<BinlogFile>, k: nat, base: Contents)
    requires k <= |files| && Clean(Events(Trxs(files)), base)
    ensures Clean(Events(Trxs(files[..k])), base)
  {
    TrxsSplit(files, k);
    EventsConcat(Trxs(files[..k]), Trxs(files[k..]));
    ApplyConcat(Events(Trxs(files[..k])), Events(Trxs(files[k..])), base);
  }

  // ---------- the backward search ----------

  function CountDown(n: nat, k: nat): (r: seq<nat>)
    requires k <= n
    ensures |r| == n - k && (k < n ==> r[|r| - 1] == k)
    decreases n - k
  {
    if k == n then [] else CountDown(n, k + 1) + [k]
  }

  /** The sets the headers name. */
  ghost function Sets(headers: seq<GtidText>): (s: seq<set<Gtid>>)
    ensures |s| == |headers| && forall i :: 0 <= i < |s| ==> s[i] == Denote(headers[i])
  {
    seq(|headers|, i requires 0 <= i < |headers| => Denote(headers[i]))
  }

  /** The listing is newest first. */
  function Oldest(binlogs: seq<nat>): nat
    requires binlogs != []
  {
    binlogs[|binlogs| - 1]
  }

  /** Which headers are free of errant transactions. */
  ghost function Clear(sets: seq<set<Gtid>>, errant: set<Gtid>): (clear: seq<bool>)
    ensures |clear| == |sets| && forall i :: 0 <= i < |sets| ==> (clear[i] <==> sets[i] !! errant)
  {
    seq(|sets|, i requires 0 <= i < |sets| => sets[i] !! errant)
  }

  ghost predicate IsLastTrue(clear: seq<bool>, k: nat) {
    k < |clear| && clear[k] && forall j :: k < j < |clear| ==> !clear[j]
  }

  ghost predicate SearchFound(sets: seq<set<Gtid>>, errant: set<Gtid>, r: SearchResult) {
    && r.Found? && r.binlogs != []
    && var k := Oldest(r.binlogs);
    && IsLastTrue(Clear(sets, errant), k)
    && r.binlogs == CountDown(|sets|, k)
    && Canonical(r.reverted) && AllValid(r.reverted)
    && Denote(r.reverted) == sets[|sets| - 1] - sets[k]
  }

  lemma FoundAt(sets: seq<set<Gtid>>, errant: set<Gtid>, reverted: GtidText, binlogs: seq<nat>, i: nat)
    requires i < |sets| && binlogs == CountDown(|sets|, i)
    requires IsLastTrue(Clear(sets, errant), i)
    requires Canonical(reverted) && AllValid(reverted) && Denote(reverted) == sets[|sets| - 1] - sets[i]
    ensures SearchFound(sets, errant, Found(reverted, binlogs))
  {
    assert Oldest(binlogs) == i;
  }

  method Examine(header: GtidText, errant: GtidText, ghost h: set<Gtid>, ghost e: set<Gtid>)
    returns (previous: GtidText, subtract: GtidText)
    requires AllValid(header) && Canonical(errant) && AllValid(errant)
    requires Denote(header) == h && Denote(errant) == e
    ensures AllValid(previous) && Denote(previous) == h
    ensures subtract == [] <==> e <= h
    ensures subtract == errant <==> h !! e
  {
    previous := GtidSubtract(header, []);
    subtract := GtidSubtract(errant, previous);
    EmptyIffSubset(e, h, subtract);
    UnchangedIffDisjoint(errant, h, subtract);
  }

  method FindBinlogs(headers: seq<GtidText>, errant: GtidText) returns (r: SearchResult)
    requires forall i :: 0 <= i < |headers| ==> AllValid(headers[i])
    requires Canonical(errant) && AllValid(errant) && errant != []
    ensures var sets, e := Sets(headers), Denote(errant);
      && (r.Found? ==> SearchFound(sets, e, r))
      && (r.HeaderLacksErrant? <==> sets != [] && !(e <= sets[|sets| - 1]))
      && (r.NoMatch? <==>
            && (sets != [] ==> e <= sets[|sets| - 1])
            && forall i :: 0 <= i < |sets| ==> !Clear(sets, e)[i])
  {
    hide Denote, Canonical;
    var n := |headers|;
    ghost var sets, e := Sets(headers), Denote(errant);
    ghost var clear := Clear(sets, e);
    var initial: GtidText, reverted: GtidText, binlogs: seq<nat> := [], [], [];
    for i := n downto 0
      invariant binlogs == CountDown(n, i)
      invariant AllValid(initial) && (i < n ==> Denote(initial) == sets[n - 1] && e <= sets[n - 1])
      invariant forall j :: i <= j < n ==> !clear[j]
    {
      var previous, subtract := Examine(headers[i], errant, sets[i], e);
      if binlogs == [] {
        if subtract != [] {
          return HeaderLacksErrant;
        }
        initial := previous;
      }
      reverted := GtidSubtract(initial, previous);
      binlogs := binlogs + [i];
      if subtract == errant {
        FoundAt(sets, e, reverted, binlogs, i);
        return Found(reverted, binlogs);
      }
    }
    r := NoMatch;
  }

  // ---------- the server's state ----------

  /**
   How a server's data, files and GTID sets hang together. `base` is the data before the oldest
   retained file, `lost` what was logged in files no longer retained.
   */
  ghost predicate Coherent(contents: Contents, files: seq<BinlogFile>, executed: set<Gtid>, purged: set<Gtid>,
                           logged: set<Gtid>, base: Contents, lost: set<Gtid>)
  {
    var ts := Trxs(files);
    && files != []
    && HeadersAgree(files, lost)
    && lost <= purged
    && logged == lost + Gtids(ts)
    && executed == purged + Gtids(ts)
    && purged !! Gtids(ts)
    && DistinctGtids(ts)
    && Clean(Events(ts), base)
    && contents == ApplyAll(Events(ts), base)
  }

  function Append(files: seq<BinlogFile>, t: Transaction): seq<BinlogFile>
    requires files != []
  {
    var last := |files| - 1;
    files[..last] + [BinlogFile(files[last].previous, files[last].trxs + [t])]
  }

  lemma FlushKeeps(files: seq<BinlogFile>, header: GtidText, lost: set<Gtid>)
    requires HeadersAgree(files, lost) && AllValid(header) && Denote(header) == lost + Gtids(Trxs(files))
    ensures HeadersAgree(files + [BinlogFile(header, [])], lost)
    ensures Trxs(files + [BinlogFile(header, [])]) == Trxs(files)
  {
    hide Denote, AllValid;
    var more := files + [BinlogFile(header, [])];
    assert more[..|files|] == files;
    forall i | 0 <= i < |more|
      ensures AllValid(more[i].previous) && Denote(more[i].previous) == lost + Gtids(Trxs(more[..i]))
    {
      assert i < |files| ==> more[..i] == files[..i];
    }
  }

  lemma AppendKeepsHeaders(files: seq<BinlogFile>, t: Transaction, lost: set<Gtid>)
    requires files != [] && HeadersAgree(files, lost)
    ensures HeadersAgree(Append(files, t), lost)
    ensures Trxs(Append(files, t)) == Trxs(files) + [t]
  {
    hide Denote, AllValid;
    var last := |files| - 1;
    var more := Append(files, t);
    assert more[..last] == files[..last];
    forall i | 0 <= i < |more|
      ensures AllValid(more[i].previous) && Denote(more[i].previous) == lost + Gtids(Trxs(more[..i]))
    {
      assert more[..i] == files[..i] && more[i].previous == files[i].previous;
    }
  }

  lemma AppendOneEvents(ts: seq<Transaction>, t: Transaction, c: Contents)
    ensures Events(ts + [t]) == Events(ts) + t.events
    ensures ApplyAll(Events(ts + [t]), c) == ApplyAll(t.events, ApplyAll(Events(ts), c))
    ensures Clean(Events(ts + [t]), c) <==> Clean(Events(ts), c) && Clean(t.events, ApplyAll(Events(ts), c))
  {
    EventsConcat(ts, [t]);
    assert Events([t]) == t.events + Events([]);
    ApplyConcat(Events(ts), t.events, c);
  }

  lemma PrependOneEvents(t: Transaction, ts: seq<Transaction>, c: Contents)
    ensures Clean(Events([t] + ts), c) <==> Clean(t.events, c) && Clean(Events(ts), ApplyAll(t.events, c))
  {
    assert ([t] + ts)[1..] == ts;
    ApplyConcat(t.events, Events(ts), c);
  }

  lemma AppendOneGtids(ts: seq<Transaction>, t: Transaction)
    ensures Gtids(ts + [t]) == Gtids(ts) + {t.gtid}
    ensures DistinctGtids(ts) && t.gtid !in Gtids(ts) ==> DistinctGtids(ts + [t])
  {
    GtidsConcat(ts, [t]);
    assert Gtids([t]) == {t.gtid};
    assert forall i :: 0 <= i < |ts| ==> ts[i].gtid in Gtids(ts);
  }

  lemma CommitKeeps(contents: Contents, files: seq<BinlogFile>, executed: set<Gtid>, purged: set<Gtid>,
                    logged: set<Gtid>, base: Contents, lost: set<Gtid>, t: Transaction)
    requires Coherent(contents, files, executed, purged, logged, base, lost)
    requires t.gtid !in executed && Clean(t.events, contents)
    ensures Coherent(ApplyAll(t.events, contents), Append(files, t), executed + {t.gtid}, purged,
                     logged + {t.gtid}, base, lost)
    ensures Trxs(Append(files, t)) == Trxs(files) + [t]
  {
    hide Denote, AllValid, HeadersAgree, Gtids, DistinctGtids, Events, Clean, ApplyAll, Trxs;
    AppendKeepsHeaders(files, t, lost);
    AppendOneEvents(Trxs(files), t, base);
    AppendOneGtids(Trxs(files), t);
  }

  // ---------- the server ----------

  datatype Outcome =
    | Done(errant: GtidText, reverted: GtidText, binlogs: seq<nat>, projected: GtidText)
    | NoErrant
    | NothingMissing
    | HeaderLacksErrantFailure
    | NoMatchFailure

  /** What the undo loop draws on: one unused source id, distinct from the others, per file. */
  ghost predicate FreshSids(sids: seq<nat>, used: set<Gtid>) {
    && (forall i, j :: 0 <= i < j < |sids| ==> sids[i] != sids[j])
    && (forall i, g :: 0 <= i < |sids| && g in used ==> sids[i] != g.sid)
  }

  class Server {
    const maxTransactions: nat  // an active file this long is rotated
    var contents: Contents
    var files: seq<BinlogFile>  // oldest first; the last one is active
    var executed: GtidText
    var purged: GtidText
    var logged: GtidText        // what the next rotated file's header will say

    ghost var base: Contents
    ghost var lost: set<Gtid>

    ghost predicate Valid()
      reads this
    {
      && Canonical(executed) && Canonical(purged) && Canonical(logged)
      && Coherent(contents, files, Denote(executed), Denote(purged), Denote(logged), base, lost)
    }

    /** flush binary logs: a new, empty active file whose header names everything logged. */
    method Flush()
      requires Valid()
      modifies this`files
      ensures Valid()
      ensures files == old(files) + [BinlogFile(logged, [])]
      ensures Trxs(files) == old(Trxs(files))
    {
      hide Denote, Canonical, AllValid, HeadersAgree, Gtids, DistinctGtids, Events, Clean, ApplyAll, Trxs;
      CanonicalIsValid(logged);
      FlushKeeps(files, logged, lost);
      files := files + [BinlogFile(logged, [])];
    }

    /** One transaction is applied and logged, with the GTID it carries. */
    method Commit(t: Transaction)
      requires Valid() && t.gtid.number >= 1 && t.gtid !in Denote(executed) && Clean(t.events, contents)
      modifies this`contents, this`files, this`executed, this`logged
      ensures Valid()
      ensures contents == ApplyAll(t.events, old(contents))
      ensures Denote(executed) == old(Denote(executed)) + {t.gtid}
      ensures Trxs(files) == old(Trxs(files)) + [t]
      ensures |files| >= |old(files)| && files[..|old(files)| - 1] == old(files)[..|old(files)| - 1]
    {
      hide Denote, Canonical, AllValid, HeadersAgree, Gtids, DistinctGtids, Events, Clean, ApplyAll, Trxs, AddGtid;
      CommitKeeps(contents, files, Denote(executed), Denote(purged), Denote(logged), base, lost, t);
      contents := ApplyAll(t.events, contents);
      files := Append(files, t);
      executed := AddGtid(executed, t.gtid);
      logged := AddGtid(logged, t.gtid);
      if maxTransactions <= |files[|files| - 1].trxs| {
        Flush();
      }
    }

    /** Generates the flashback of one file as it stands now, and applies it. */
    method ApplyFlashback(file: nat, sid: nat)
      requires Valid() && file < |files|
      requires forall g :: g in Denote(executed) ==> g.sid != sid
      requires Clean(Events(Flashback(files[file].trxs, sid)), contents)
      modifies this`contents, this`files, this`executed, this`logged
      ensures Valid()
      ensures contents == ApplyAll(Events(Flashback(old(files)[file].trxs, sid)), old(contents))
      ensures forall g :: g in Denote(executed) ==> g in old(Denote(executed)) || g.sid == sid
      ensures |files| >= |old(files)| && files[..|old(files)| - 1] == old(files)[..|old(files)| - 1]
      ensures old(files)[file].trxs == [] ==> files == old(files)
    {
      hide Denote, Canonical, Flashback, Coherent, Clean, ApplyAll, Trxs, Events;
      var undo := Flashback(files[file].trxs, sid);
      NoEvents(contents);
      assert undo[..0] == [] && undo[0..] == undo;
      for j := 0 to |undo|
        invariant Valid()
        invariant contents == ApplyAll(Events(undo[..j]), old(contents))
        invariant Clean(Events(undo[j..]), contents)
        invariant forall g :: g in Denote(executed) ==>
          g in old(Denote(executed)) || (g.sid == sid && g.number <= j)
        invariant |files| >= |old(files)| && files[..|old(files)| - 1] == old(files)[..|old(files)| - 1]
        invariant j == 0 ==> files == old(files)
      {
        var t := undo[j];
        assert undo[j..] == [t] + undo[j + 1..] && undo[..j + 1] == undo[..j] + [t];
        PrependOneEvents(t, undo[j + 1..], contents);
        AppendOneEvents(undo[..j], t, old(contents));
        ghost var before := files;
        Commit(t);
        assert files[..|old(files)| - 1] == files[..|before| - 1][..|old(files)| - 1];
      }
      assert undo[..|undo|] == undo;
    }

    /** Undoes the listed files one at a time, each read from disk at its turn. */
    method RevertBinlogs(binlogs: seq<nat>, ghost k: nat, sids: seq<nat>)
      requires Valid() && k < |files| && files[|files| - 1].trxs == []
      requires binlogs == CountDown(|files|, k)
      requires |binlogs| <= |sids| && FreshSids(sids, Denote(executed))
      modifies this`contents, this`files, this`executed, this`logged
      ensures Valid()
      ensures contents == ApplyAll(Events(Trxs(old(files)[..k])), base)
    {
      hide Denote, Canonical, Flashback, HeadersAgree, DistinctGtids, Gtids, Clean, ApplyAll, Trxs, Events;
      var n := |files|;
      ghost var was := files;
      assert was[..n] == was;
      for i := 0 to |binlogs|
        invariant Valid()
        invariant contents == ApplyAll(Events(Trxs(was[..n - i])), base)
        invariant |files| >= n && files[..n - 1] == was[..n - 1] && (i == 0 ==> files == was)
        invariant forall g, j :: g in Denote(executed) && i <= j < |sids| ==> g.sid != sids[j]
      {
        var at := binlogs[i];
        CountDownAt(n, k, i);
        assert files[at] == was[at] by {
          if i > 0 {
            assert files[at] == files[..n - 1][at] && was[at] == was[..n - 1][at];
          }
        }
        FlashbackFits(was, at, base, sids[i]);
        ghost var before := files;
        ApplyFlashback(at, sids[i]);
        assert files[..n - 1] == files[..|before| - 1][..n - 1];
      }
    }

    method ResetMaster()
      requires Valid()
      modifies this
      ensures Valid()
      ensures contents == base == old(contents) && lost == {}
      ensures executed == purged == logged == [] && files == [BinlogFile([], [])]
    {
      hide Coherent;
      files := [BinlogFile([], [])];
      executed, purged, logged, lost, base := [], [], [], {}, contents;
      FreshServer(contents);
    }

    /** set global gtid_purged: accepted only while gtid_executed is empty. */
    method SetPurged(gtids: GtidText)
      requires Valid() && executed == purged == [] && lost == {} && files == [BinlogFile([], [])] && Canonical(gtids)
      modifies this`executed, this`purged
      ensures Valid()
      ensures executed == purged == gtids
    {
      assert Trxs(files) == [];
      executed, purged := gtids, gtids;
    }

    /** rewind, with the master's answer to `select @@global.gtid_executed`. */
    method Rewind(masterExecuted: GtidText, sids: seq<nat>, execute: bool) returns (r: Outcome)
      requires Valid() && Canonical(masterExecuted)
      requires |files| < |sids| && FreshSids(sids, Denote(executed))
      modifies this
      ensures Valid()
      ensures Verdict(old(files), old(Denote(executed)), Denote(masterExecuted), old(Denote(purged)), old(lost), r)
      ensures r.Done? && execute ==>
        && contents == base == ApplyAll(Events(Trxs(old(files)[..Oldest(r.binlogs)])), old(base))
        && executed == purged == r.projected && files == [BinlogFile([], [])]
      ensures !(r.Done? && execute) ==>
        && contents == old(contents) && executed == old(executed) && purged == old(purged)
        && base == old(base) && lost == old(lost) && logged == old(logged)
        && files == if r.NoErrant? || r.NothingMissing? then old(files) else old(files) + [BinlogFile(logged, [])]
    {
      hide Denote, Canonical, HeadersAgree, DistinctGtids, Gtids, Clean, ApplyAll, Trxs, Events, Clear, CountDown;
      hide FreshSids, IsLastTrue, Chosen, AllValid;
      CanonicalIsValid(executed);
      CanonicalIsValid(masterExecuted);
      var local := executed;
      ghost var l, m := Denote(local), Denote(masterExecuted);
      var errant := GtidSubtract(local, masterExecuted);
      EmptyTextIffEmptySet(errant);
      EmptyIffSubset(l, m, errant);
      if errant == [] {
        return NoErrant;
      }
      var shared := GtidSubtract(masterExecuted, local);
      EmptyIffSubset(m, l, shared);
      if shared == [] {
        return NothingMissing;
      }
      Flush();
      var headers := seq(|files|, i requires 0 <= i < |files| reads this => files[i].previous);
      HeaderSets(old(files), files[|files| - 1], lost, headers);
      var search := FindBinlogs(headers, errant);
      match search {
        case HeaderLacksErrant => r := HeaderLacksErrantFailure;
        case NoMatch => r := NoMatchFailure;
        case Found(reverted, binlogs) =>
          var projected := GtidSubtract(local, reverted);
          r := Done(errant, reverted, binlogs, projected);
      }
      assert Denote(errant) == l - m && l == Denote(purged) + Gtids(Trxs(old(files)));
      SearchIsRight(old(files), lost, Denote(purged), Sets(headers), m, Denote(errant), search, r);
      if r.Done? && execute {
        assert old(files) == files[..|old(files)|];
        assert old(files)[..Oldest(r.binlogs)] == files[..Oldest(r.binlogs)];
        RevertBinlogs(r.binlogs, Oldest(r.binlogs), sids);
        ResetMaster();
        SetPurged(r.projected);
      }
    }

    /** Resumed replication: every master transaction not yet executed, in the master's order. */
    method Replicate(master: seq<Transaction>)
      requires Valid() && DistinctGtids(master)
      requires forall t :: t in master ==> t.gtid.number >= 1
      requires Clean(Events(Missing(master, Denote(executed))), contents)
      modifies this`contents, this`files, this`executed, this`logged
      ensures Valid()
      ensures contents == ApplyAll(Events(Missing(master, old(Denote(executed)))), old(contents))
      ensures Denote(executed) == old(Denote(executed)) + Gtids(master)
    {
      hide Denote, Canonical, Coherent, Clean, ApplyAll, Trxs, Events, Missing, Gtids, Member;
      ghost var have := Denote(executed);
      assert master[..0] == [] && master[0..] == master;
      NoEvents(contents);
      NoneMissing(have);
      for i := 0 to |master|
        invariant Valid()
        invariant contents == ApplyAll(Events(Missing(master[..i], have)), old(contents))
        invariant Denote(executed) == have + Gtids(master[..i])
        invariant Clean(Events(Missing(master[i..], have)), contents)
      {
        var t := master[i];
        assert master[i..] == [t] + master[i + 1..] && master[..i + 1] == master[..i] + [t];
        AppendOneGtids(master[..i], t);
        NotAmongEarlier(master, i);
        MissingNext(master[..i], t, master[i + 1..], have);
        if !Member(executed, t.gtid) {
          PrependOneEvents(t, Missing(master[i + 1..], have), contents);
          AppendOneEvents(Missing(master[..i], have), t, old(contents));
          Commit(t);
        }
      }
      assert master[..|master|] == master;
    }

    /**
     The whole operation with `-x -r`. `origin` is the data both servers began with, `before` the
     transactions this server had executed before its oldest retained file, `master` everything
     the master has executed by the time replication catches up. From each file before which nothing
     errant had been executed, replication is assumed to meet no apply error; nothing is assumed
     about the order in which this server had applied its transactions.
     */
    method RewindAndResume(masterExecuted: GtidText, sids: seq<nat>, master: seq<Transaction>,
                           ghost origin: Contents, ghost before: seq<Transaction>)
      returns (r: Outcome)
      requires Valid() && Canonical(masterExecuted) && |files| < |sids| && FreshSids(sids, Denote(executed))
      requires Clean(Events(before), origin) && base == ApplyAll(Events(before), origin)
      requires Gtids(before) == Denote(purged) && DistinctGtids(before)
      requires DistinctGtids(master) && Clean(Events(master), origin)
      requires forall t :: t in master ==> t.gtid.number >= 1
      requires Denote(masterExecuted) <= Gtids(master) && SameWhereShared(before + Trxs(files), master)
      requires forall k :: 0 <= k < |files| && ErrantFree(files[..k], Denote(purged), Denote(masterExecuted)) ==>
        Clean(Events(Missing(master, Gtids(before + Trxs(files[..k])))), ApplyAll(Events(Trxs(files[..k])), base))
      modifies this
      ensures Valid()
      ensures Verdict(old(files), old(Denote(executed)), Denote(masterExecuted), old(Denote(purged)), old(lost), r)
      ensures r.Done? ==>
        contents == ApplyAll(Events(master), origin) && Denote(executed) == Gtids(master)
    {
      hide Denote, Canonical, Clean, ApplyAll, Trxs, Events, Missing, Gtids, FreshSids, HeadersAgree, CountDown;
      hide DistinctGtids, SameWhereShared;
      r := Rewind(masterExecuted, sids, true);
      if r.Done? {
        ghost var k := Oldest(r.binlogs);
        assert ErrantFree(old(files)[..k], Denote(old(purged)), Denote(masterExecuted));
        KeptHistory(old(files), k, origin, before, old(base), Denote(old(purged)), master);
        Replicate(master);
        ReplicationConverges(origin, before + Trxs(old(files)[..k]), master);
      }
    }

    /**
     The same without any assumption about apply errors: it is enough that what this server had
     executed before each such file are the master's first transactions, in the master's order.
     */
    method RewindAndResumeInOrder(masterExecuted: GtidText, sids: seq<nat>, master: seq<Transaction>,
                                  ghost origin: Contents, ghost before: seq<Transaction>)
      returns (r: Outcome)
      requires Valid() && Canonical(masterExecuted) && |files| < |sids| && FreshSids(sids, Denote(executed))
      requires Clean(Events(before), origin) && base == ApplyAll(Events(before), origin)
      requires Gtids(before) == Denote(purged) && DistinctGtids(before)
      requires DistinctGtids(master) && Clean(Events(master), origin)
      requires forall t :: t in master ==> t.gtid.number >= 1
      requires Denote(masterExecuted) <= Gtids(master) && SameWhereShared(before + Trxs(files), master)
      requires forall k :: 0 <= k < |files| && ErrantFree(files[..k], Denote(purged), Denote(masterExecuted)) ==>
        before + Trxs(files[..k]) <= master
      modifies this
      ensures Valid()
      ensures Verdict(old(files), old(Denote(executed)), Denote(masterExecuted), old(Denote(purged)), old(lost), r)
      ensures r.Done? ==>
        contents == ApplyAll(Events(master), origin) && Denote(executed) == Gtids(master)
    {
      hide Denote, Canonical, Clean, ApplyAll, Trxs, Events, Missing, Gtids, FreshSids, HeadersAgree, CountDown;
      hide DistinctGtids, SameWhereShared, ErrantFree;
      forall k | 0 <= k < |files| && ErrantFree(files[..k], Denote(purged), Denote(masterExecuted))
        ensures Clean(Events(Missing(master, Gtids(before + Trxs(files[..k])))),
                      ApplyAll(Events(Trxs(files[..k])), base))
      {
        FirstOnesNeverFail(origin, before, Trxs(files[..k]), base, master);
      }
      r := RewindAndResume(masterExecuted, sids, master, origin, before);
    }
  }

  /** Everything executed in these files and before them has been executed by the master. */
  ghost predicate ErrantFree(files: seq<BinlogFile>, purged: set<Gtid>, master: set<Gtid>) {
    purged + Gtids(Trxs(files)) <= master
  }

  /** What was executed before file k, as one history from the common origin. */
  lemma KeptHistory(files: seq<BinlogFile>, k: nat, origin: Contents, before: seq<Transaction>, base: Contents,
                    purged: set<Gtid>, master: seq<Transaction>)
    requires k <= |files| && Clean(Events(before), origin) && base == ApplyAll(Events(before), origin)
    requires Gtids(before) == purged && purged !! Gtids(Trxs(files))
    requires DistinctGtids(before) && DistinctGtids(Trxs(files)) && Clean(Events(Trxs(files)), base)
    requires SameWhereShared(before + Trxs(files), master)
    ensures var kept := before + Trxs(files[..k]);
      && Gtids(kept) == purged + Gtids(Trxs(files[..k]))
      && DistinctGtids(kept) && Clean(Events(kept), origin) && SameWhereShared(kept, master)
      && ApplyAll(Events(kept), origin) == ApplyAll(Events(Trxs(files[..k])), base)
  {
    hide Clean, ApplyAll, Events, Trxs;
    var mine := Trxs(files[..k]);
    GtidsConcat(before, mine);
    TrxsSplit(files, k);
    EventsConcat(before, mine);
    PrefixIsClean(files, k, base);
    ApplyConcat(Events(before), Events(mine), origin);
    assert Trxs(files)[..|mine|] == mine;
    var kept := before + mine;
    forall i, j | 0 <= i < j < |kept| ensures kept[i].gtid != kept[j].gtid {
      if i < |before| <= j {
        assert kept[i] == before[i] && kept[j] == mine[j - |before|];
        assert kept[i].gtid in Gtids(before) && kept[j].gtid in Gtids(Trxs(files));
      }
    }
    assert forall t :: t in kept ==> t in before + Trxs(files);
  }

  lemma FreshServer(c: Contents)
    ensures Canonical([]) && Denote([]) == {}
    ensures Coherent(c, [BinlogFile([], [])], {}, {}, {}, c, {})
  {
    var files := [BinlogFile([], [])];
    assert files[..0] == [] && Trxs(files[..0]) == [];
    assert Trxs(files) == [];
  }

  lemma NoEvents(c: Contents)
    ensures ApplyAll(Events([]), c) == c && Clean(Events([]), c)
  {
  }

  lemma {:induction false} CountDownAt(n: nat, k: nat, i: nat)
    requires k <= n && i < n - k
    ensures CountDown(n, k)[i] == n - 1 - i
    decreases n - k
  {
    if i < n - k - 1 {
      CountDownAt(n, k + 1, i);
    }
  }

  /** With the files up to and including `at` applied, flashback of file `at` fits and takes it off. */
  lemma FlashbackFits(files: seq<BinlogFile>, at: nat, base: Contents, sid: nat)
    requires at < |files| && Clean(Events(Trxs(files)), base)
    ensures var undo, c := Events(Flashback(files[at].trxs, sid)), ApplyAll(Events(Trxs(files[..at + 1])), base);
      Clean(undo, c) && ApplyAll(undo, c) == ApplyAll(Events(Trxs(files[..at])), base)
  {
    var older, mine := Trxs(files[..at]), files[at].trxs;
    assert files[..at + 1][..at] == files[..at] && files[..at + 1][at] == files[at];
    assert Trxs(files[..at + 1]) == older + mine;
    PrefixIsClean(files, at + 1, base);
    EventsConcat(older, mine);
    ApplyConcat(Events(older), Events(mine), base);
    FlashbackEvents(mine, sid);
    InvertAllUndoes(Events(mine), ApplyAll(Events(older), base));
  }

  // ---------- what the search means ----------

  /**
   How each way out of `rewind` is decided, in terms of what the files hold, with `errant` the
   transactions executed here and not on the master.
   */
  ghost predicate Verdict(files: seq<BinlogFile>, local: set<Gtid>, master: set<Gtid>, purged: set<Gtid>,
                          lost: set<Gtid>, r: Outcome)
  {
    var errant, logged := local - master, lost + Gtids(Trxs(files));
    && (r.NoErrant? <==> local <= master)
    && (r.NothingMissing? <==> !(local <= master) && master <= local)
    && (r.HeaderLacksErrantFailure? <==> !(local <= master) && !(master <= local) && !(errant <= logged))
    && (r.NoMatchFailure? <==>
          !(local <= master) && !(master <= local) && errant <= logged && !(lost !! errant))
    && (r.Done? ==> Chosen(files, local, master, purged, r))
  }

  /**
   What a successful search and its bookkeeping amount to: the reverted set is exactly what the
   undone files hold; it contains everything errant, and no shorter run of newest files would;
   what is projected is exactly what had been executed before those files, none of it errant.
   */
  ghost predicate Chosen(files: seq<BinlogFile>, local: set<Gtid>, master: set<Gtid>, purged: set<Gtid>, r: Outcome)
    requires r.Done?
  {
    && r.binlogs != []
    && var k := Oldest(r.binlogs);
    && k < |files|
    && r.binlogs == CountDown(|files| + 1, k)
    && Canonical(r.errant) && Denote(r.errant) == local - master
    && Canonical(r.reverted) && Denote(r.reverted) == Gtids(Trxs(files[k..]))
    && local - master <= Gtids(Trxs(files[k..]))
    && (forall j :: k < j <= |files| ==> !(local - master <= Gtids(Trxs(files[j..]))))
    && Canonical(r.projected) && Denote(r.projected) == purged + Gtids(Trxs(files[..k]))
    && Denote(r.projected) <= master * local
  }

  lemma HeaderSets(files: seq<BinlogFile>, flushed: BinlogFile, lost: set<Gtid>, headers: seq<GtidText>)
    requires HeadersAgree(files + [flushed], lost) && |headers| == |files| + 1
    requires forall i :: 0 <= i < |headers| ==> headers[i] == (files + [flushed])[i].previous
    ensures forall i :: 0 <= i < |headers| ==> AllValid(headers[i])
    ensures forall i :: 0 <= i <= |files| ==> Sets(headers)[i] == lost + Gtids(Trxs(files[..i]))
  {
    hide AllValid, Denote, Trxs, Gtids;
    forall i | 0 <= i <= |files| ensures Sets(headers)[i] == lost + Gtids(Trxs(files[..i])) {
      assert (files + [flushed])[..i] == files[..i];
    }
  }

  lemma SuffixGtids(files: seq<BinlogFile>, k: nat)
    requires k <= |files| && DistinctGtids(Trxs(files))
    ensures Gtids(Trxs(files)) == Gtids(Trxs(files[..k])) + Gtids(Trxs(files[k..]))
    ensures Gtids(Trxs(files[..k])) !! Gtids(Trxs(files[k..]))
  {
    hide DistinctGtids, Gtids, Trxs;
    TrxsSplit(files, k);
    DistinctConcat(Trxs(files[..k]), Trxs(files[k..]));
  }

  lemma ClearIffWithin(older: set<Gtid>, newer: set<Gtid>, errant: set<Gtid>)
    requires errant <= older + newer && older !! newer
    ensures older !! errant <==> errant <= newer
  {
  }

  lemma SplitAt(files: seq<BinlogFile>, lost: set<Gtid>, errant: set<Gtid>, j: nat)
    requires j <= |files| && DistinctGtids(Trxs(files)) && lost !! Gtids(Trxs(files))
    requires errant <= lost + Gtids(Trxs(files))
    ensures lost + Gtids(Trxs(files[..j])) !! errant <==> errant <= Gtids(Trxs(files[j..]))
  {
    hide DistinctGtids, Gtids, Trxs;
    SuffixGtids(files, j);
    ClearIffWithin(lost + Gtids(Trxs(files[..j])), Gtids(Trxs(files[j..])), errant);
  }

  lemma BookkeepingIsRight(lost: set<Gtid>, purged: set<Gtid>, older: set<Gtid>, newer: set<Gtid>, master: set<Gtid>)
    requires lost <= purged && purged !! older + newer && older !! newer
    ensures (lost + (older + newer)) - (lost + older) == newer
    ensures (purged + (older + newer)) - newer == purged + older
    ensures (purged + (older + newer)) - master <= newer ==> purged + older <= master * (purged + (older + newer))
  {
  }

  lemma SearchIsRight(files: seq<BinlogFile>, lost: set<Gtid>, purged: set<Gtid>, sets: seq<set<Gtid>>,
                      master: set<Gtid>, errant: set<Gtid>, search: SearchResult, r: Outcome)
    requires lost <= purged && purged !! Gtids(Trxs(files)) && DistinctGtids(Trxs(files))
    requires |sets| == |files| + 1
    requires forall j :: 0 <= j <= |files| ==> sets[j] == lost + Gtids(Trxs(files[..j]))
    requires errant == purged + Gtids(Trxs(files)) - master && errant != {}
    requires !(master <= purged + Gtids(Trxs(files)))
    requires search.HeaderLacksErrant? <==> !(errant <= sets[|files|])
    requires search.NoMatch? <==> errant <= sets[|files|] && forall i :: 0 <= i < |sets| ==> !Clear(sets, errant)[i]
    requires search.Found? ==> SearchFound(sets, errant, search)
    requires match search
      case HeaderLacksErrant => r == HeaderLacksErrantFailure
      case NoMatch => r == NoMatchFailure
      case Found(reverted, binlogs) =>
        && r.Done? && r.reverted == reverted && r.binlogs == binlogs
        && Canonical(r.errant) && Denote(r.errant) == errant
        && Canonical(r.projected) && Denote(r.projected) == purged + Gtids(Trxs(files)) - Denote(reverted)
    ensures Verdict(files, purged + Gtids(Trxs(files)), master, purged, lost, r)
  {
    hide Denote, Canonical, AllValid, DistinctGtids, Gtids, Trxs, CountDown, Clear;
    var n := |files|;
    assert files[..n] == files && files[..0] == [];
    EmptyTrxs();
    assert sets[n] == lost + Gtids(Trxs(files)) && sets[0] == lost;
    ClearOnlyIfOldestIs(sets, lost, errant);
    if search.Found? {
      FoundIsRight(files, lost, purged, sets, master, errant, search, r);
    }
  }

  lemma EmptyTrxs()
    ensures Gtids(Trxs([])) == {}
  {
  }

  /** Headers only grow, so some header is clear exactly when the oldest one is. */
  lemma ClearOnlyIfOldestIs(sets: seq<set<Gtid>>, lost: set<Gtid>, errant: set<Gtid>)
    requires sets != [] && sets[0] == lost && forall i :: 0 <= i < |sets| ==> lost <= sets[i]
    ensures (forall i :: 0 <= i < |sets| ==> !Clear(sets, errant)[i]) <==> !(lost !! errant)
  {
    hide Clear;
    if lost !! errant {
      assert Clear(sets, errant)[0];
    } else {
      var g :| g in lost && g in errant;
      assert forall i :: 0 <= i < |sets| ==> g in sets[i];
    }
  }

  lemma FoundIsRight(files: seq<BinlogFile>, lost: set<Gtid>, purged: set<Gtid>, sets: seq<set<Gtid>>,
                     master: set<Gtid>, errant: set<Gtid>, search: SearchResult, r: Outcome)
    requires lost <= purged && purged !! Gtids(Trxs(files)) && DistinctGtids(Trxs(files))
    requires |sets| == |files| + 1
    requires forall j :: 0 <= j <= |files| ==> sets[j] == lost + Gtids(Trxs(files[..j]))
    requires errant == purged + Gtids(Trxs(files)) - master && errant != {}
    requires errant <= lost + Gtids(Trxs(files)) && sets[|files|] == lost + Gtids(Trxs(files))
    requires SearchFound(sets, errant, search)
    requires r.Done? && r.reverted == search.reverted && r.binlogs == search.binlogs
    requires Canonical(r.errant) && Denote(r.errant) == errant
    requires Canonical(r.projected) && Denote(r.projected) == purged + Gtids(Trxs(files)) - Denote(r.reverted)
    ensures Chosen(files, purged + Gtids(Trxs(files)), master, purged, r)
  {
    hide Denote, Canonical, AllValid, DistinctGtids, Gtids, Trxs, CountDown, Clear;
    var n, k := |files|, Oldest(r.binlogs);
    forall j | k <= j <= n ensures errant <= Gtids(Trxs(files[j..])) <==> j == k {
      SplitAt(files, lost, errant, j);
      assert Clear(sets, errant)[j] <==> j == k;
    }
    assert k < n by {
      assert files[n..] == [];
      EmptyTrxs();
    }
    SuffixGtids(files, k);
    BookkeepingIsRight(lost, purged, Gtids(Trxs(files[..k])), Gtids(Trxs(files[k..])), master);
  }

  // ---------- convergence ----------

  /** The master's transactions outside `have`, in order: what auto-positioning sends. */
  ghost function Missing(master: seq<Transaction>, have: set<Gtid>): seq<Transaction> {
    if master == [] then []
    else (if master[0].gtid in have then [] else [master[0]]) + Missing(master[1..], have)
  }

  lemma NoneMissing(have: set<Gtid>)
    ensures Missing([], have) == [] && Gtids([]) == {}
  {
  }

  lemma NotAmongEarlier(ts: seq<Transaction>, i: nat)
    requires i < |ts| && DistinctGtids(ts)
    ensures ts[i].gtid !in Gtids(ts[..i])
  {
  }

  lemma MissingNext(a: seq<Transaction>, t: Transaction, b: seq<Transaction>, have: set<Gtid>)
    ensures Missing(a + [t], have) == if t.gtid in have then Missing(a, have) else Missing(a, have) + [t]
    ensures Missing([t] + b, have) == if t.gtid in have then Missing(b, have) else [t] + Missing(b, have)
  {
    MissingConcat(a, [t], have);
    assert Missing([t], have) == if t.gtid in have then [] else [t];
    assert ([t] + b)[1..] == b;
  }

  /** A GTID names one transaction. */
  ghost predicate SameWhereShared(local: seq<Transaction>, master: seq<Transaction>) {
    forall t, u :: t in local && u in master && t.gtid == u.gtid ==> t == u
  }

  lemma {:induction false} MissingConcat(a: seq<Transaction>, b: seq<Transaction>, have: set<Gtid>)
    ensures Missing(a + b, have) == Missing(a, have) + Missing(b, have)
  {
    if a == [] {
      assert a + b == b;
    } else {
      assert (a + b)[1..] == a[1..] + b;
      MissingConcat(a[1..], b, have);
    }
  }

  /** What was kept and what replication sends make up the master's history, each exactly once. */
  lemma {:induction false} KeptPlusMissing(kept: seq<Transaction>, master: seq<Transaction>)
    requires DistinctGtids(kept) && DistinctGtids(master)
    requires Gtids(kept) <= Gtids(master) && SameWhereShared(kept, master)
    ensures multiset(kept + Missing(master, Gtids(kept))) == multiset(master)
    decreases |master|
  {
    hide Missing, SameWhereShared, DistinctGtids;
    var have := Gtids(kept);
    NoneMissing(have);
    if master == [] {
      assert forall i :: 0 <= i < |kept| ==> kept[i].gtid in have;
    } else {
      var t, rest := master[0], master[1..];
      assert master == [t] + rest;
      MissingNext([], t, rest, have);
      if t.gtid in have {
        var fewer := TakeOut(kept, t, rest);
        KeptPlusMissing(fewer, rest);
        OnlyMatters(rest, have, t.gtid);
        assert multiset(kept + Missing(rest, have)) == multiset(fewer + Missing(rest, have)) + multiset{t};
      } else {
        NotTheFirst(kept, master);
        KeptPlusMissing(kept, rest);
        assert multiset(kept + ([t] + Missing(rest, have))) == multiset(kept + Missing(rest, have)) + multiset{t};
      }
    }
  }

  lemma TakeOut(kept: seq<Transaction>, t: Transaction, rest: seq<Transaction>) returns (fewer: seq<Transaction>)
    requires DistinctGtids(kept) && DistinctGtids([t] + rest) && t.gtid in Gtids(kept)
    requires Gtids(kept) <= Gtids([t] + rest) && SameWhereShared(kept, [t] + rest)
    ensures DistinctGtids(fewer) && DistinctGtids(rest)
    ensures multiset(kept) == multiset(fewer) + multiset{t}
    ensures Gtids(fewer) == Gtids(kept) - {t.gtid}
    ensures Gtids(fewer) <= Gtids(rest) && SameWhereShared(fewer, rest) && t.gtid !in Gtids(rest)
  {
    hide DistinctGtids;
    var i :| 0 <= i < |kept| && kept[i].gtid == t.gtid;
    assert t in [t] + rest && kept[i] in kept;
    fewer := TakeOutAt(kept, i);
    DistinctTail(t, rest);
    assert forall y :: y in [t] + rest <==> y in rest || y == t;
  }

  lemma TakeOutAt(kept: seq<Transaction>, i: nat) returns (fewer: seq<Transaction>)
    requires i < |kept| && DistinctGtids(kept)
    ensures DistinctGtids(fewer) && forall y :: y in fewer ==> y in kept
    ensures multiset(kept) == multiset(fewer) + multiset{kept[i]}
    ensures Gtids(fewer) == Gtids(kept) - {kept[i].gtid}
  {
    fewer := kept[..i] + kept[i + 1..];
    assert kept == kept[..i] + ([kept[i]] + kept[i + 1..]);
    WithoutMiddle(kept[..i], kept[i], kept[i + 1..]);
  }

  lemma WithoutMiddle(a: seq<Transaction>, x: Transaction, b: seq<Transaction>)
    requires DistinctGtids(a + ([x] + b))
    ensures DistinctGtids(a + b) && Gtids(a + b) == Gtids(a + ([x] + b)) - {x.gtid}
  {
    hide DistinctGtids;
    GtidsConcat(a, b);
    GtidsConcat(a, [x] + b);
    GtidsConcat([x], b);
    DistinctConcat(a, [x] + b);
    DistinctConcat([x], b);
    DistinctConcat(a, b);
    assert Gtids([x]) == {x.gtid};
  }

  lemma DistinctTail(t: Transaction, rest: seq<Transaction>)
    requires DistinctGtids([t] + rest)
    ensures DistinctGtids(rest) && t.gtid !in Gtids(rest)
  {
    assert forall j :: 0 <= j < |rest| ==> rest[j] == ([t] + rest)[j + 1];
    assert ([t] + rest)[0] == t;
  }

  lemma NotTheFirst(kept: seq<Transaction>, master: seq<Transaction>)
    requires master != [] && DistinctGtids(master) && master[0].gtid !in Gtids(kept)
    requires Gtids(kept) <= Gtids(master) && SameWhereShared(kept, master)
    ensures Gtids(kept) <= Gtids(master[1..]) && SameWhereShared(kept, master[1..]) && DistinctGtids(master[1..])
  {
    forall g | g in Gtids(kept) ensures g in Gtids(master[1..]) {
      var y :| y in master && y.gtid == g;
      assert y in master[1..];
    }
  }

  lemma {:induction false} OnlyMatters(rest: seq<Transaction>, have: set<Gtid>, g: Gtid)
    requires g !in Gtids(rest)
    ensures Missing(rest, have) == Missing(rest, have - {g})
  {
    if rest != [] {
      assert rest[0].gtid in Gtids(rest);
      assert Gtids(rest[1..]) <= Gtids(rest);
      OnlyMatters(rest[1..], have, g);
    }
  }

  /** Once every master transaction is in, the data equals the master's. */
  lemma ReplicationConverges(origin: Contents, kept: seq<Transaction>, master: seq<Transaction>)
    requires Clean(Events(kept), origin) && Clean(Events(master), origin)
    requires DistinctGtids(kept) && DistinctGtids(master)
    requires Gtids(kept) <= Gtids(master) && SameWhereShared(kept, master)
    requires Clean(Events(Missing(master, Gtids(kept))), ApplyAll(Events(kept), origin))
    ensures ApplyAll(Events(Missing(master, Gtids(kept))), ApplyAll(Events(kept), origin))
         == ApplyAll(Events(master), origin)
    ensures Gtids(kept) + Gtids(master) == Gtids(master)
  {
    var sent := Missing(master, Gtids(kept));
    KeptPlusMissing(kept, master);
    EventsConcat(kept, sent);
    ApplyConcat(Events(kept), Events(sent), origin);
    CleanOrdersAgree(kept + sent, master, origin);
  }

  /** If the kept transactions are the master's first ones, in its order, replication meets no apply error. */
  lemma InOrderNeverFails(origin: Contents, master: seq<Transaction>, p: nat)
    requires p <= |master| && DistinctGtids(master) && Clean(Events(master), origin)
    ensures Missing(master, Gtids(master[..p])) == master[p..]
    ensures Clean(Events(Missing(master, Gtids(master[..p]))), ApplyAll(Events(master[..p]), origin))
  {
    var kept, rest := master[..p], master[p..];
    assert master == kept + rest;
    MissingConcat(kept, rest, Gtids(kept));
    AllOrNothing(kept, Gtids(kept));
    assert forall t :: t in rest ==> t.gtid !in Gtids(kept) by {
      forall t, u | t in rest && u in kept ensures t.gtid != u.gtid {
        var i :| 0 <= i < |rest| && rest[i] == t;
        var j :| 0 <= j < |kept| && kept[j] == u;
        assert master[p + i] == t && master[j] == u;
      }
    }
    AllOrNothing(rest, Gtids(kept));
    EventsConcat(kept, rest);
    ApplyConcat(Events(kept), Events(rest), origin);
  }

  lemma FirstOnesNeverFail(origin: Contents, before: seq<Transaction>, mine: seq<Transaction>, base: Contents,
                           master: seq<Transaction>)
    requires before + mine <= master && DistinctGtids(master) && Clean(Events(master), origin)
    requires base == ApplyAll(Events(before), origin)
    ensures Clean(Events(Missing(master, Gtids(before + mine))), ApplyAll(Events(mine), base))
  {
    hide Clean, ApplyAll, Events, Missing, Gtids, DistinctGtids;
    var kept := before + mine;
    assert master[..|kept|] == kept;
    InOrderNeverFails(origin, master, |kept|);
    EventsConcat(before, mine);
    ApplyConcat(Events(before), Events(mine), origin);
  }

  lemma {:induction false} AllOrNothing(ts: seq<Transaction>, have: set<Gtid>)
    ensures (forall t :: t in ts ==> t.gtid in have) ==> Missing(ts, have) == []
    ensures (forall t :: t in ts ==> t.gtid !in have) ==> Missing(ts, have) == ts
  {
    if ts != [] {
      assert ts[0] in ts && forall t :: t in ts[1..] ==> t in ts;
      AllOrNothing(ts[1..], have);
    }
  }

  /**
   The "shared GTID" check subtracts the local set from the master's, so it does not test for
   sharing: it turns away servers that share everything and lets through servers that share nothing.
   */
  lemma SharedCheckIsNotSharing()
    ensures var local, master := [Range(1, 1, 9), Range(2, 1, 1)], [Range(1, 1, 9)];
      Subtract(local, master) != [] && !(Denote(local) !! Denote(master)) && Subtract(master, local) == []
    ensures var local, master := [Range(2, 1, 1)], [Range(1, 1, 9)];
      Subtract(local, master) != [] && Denote(local) !! Denote(master) && Subtract(master, local) != []
  {
    var a, b := Range(1, 1, 9), Range(2, 1, 1);
    assert a.Covers(Gtid(1, 1)) && b.Covers(Gtid(2, 1)) && !a.Covers(Gtid(2, 1));
    assert Denote([a, b]) == a.Points() + Denote([b]);
    EmptyIffSubset(Denote([a, b]), Denote([a]), Subtract([a, b], [a]));
    EmptyIffSubset(Denote([a]), Denote([a, b]), Subtract([a], [a, b]));
    EmptyIffSubset(Denote([b]), Denote([a]), Subtract([b], [a]));
    EmptyIffSubset(Denote([a]), Denote([b]), Subtract([a], [b]));
    assert Gtid(1, 1) in Denote([a]) && Gtid(2, 1) in Denote([a, b]);
  }

  /**
   Exactly when the check agrees with a test for sharing: if the master has executed nothing, or if
   the two share something and the master has something more.
   */
  lemma SharedCheckIsRightExactlyIf(local: GtidText, master: GtidText)
    requires Canonical(local) && Canonical(master) && AllValid(local) && AllValid(master)
    ensures var refuses, sharesNothing := Subtract(master, local) == [], Denote(local) !! Denote(master);
            (refuses <==> sharesNothing) <==>
              master == [] || (!sharesNothing && !(Denote(master) <= Denote(local)))
  {
    EmptyIffSubset(Denote(master), Denote(local), Subtract(master, local));
    EmptyTextIffEmptySet(master);
    if Denote(master) != {} {
      var g :| g in Denote(master);
      assert g in Denote(local) || !(Denote(master) <= Denote(local));
    }
  }

  // ---------- an example ----------

  const ROW := RowId("t", "1")

  /** Written here while this server took itself for the master, and written on the master. */
  const MINE := Transaction(Gtid(2, 1), [Insert(ROW, ["mine"])])
  const THEIRS := Transaction(Gtid(1, 1), [Insert(ROW, ["theirs"])])

  lemma SingleTexts()
    ensures Canonical([Range(1, 1, 1)]) && Denote([Range(1, 1, 1)]) == {Gtid(1, 1)}
    ensures Canonical([Range(2, 1, 1)]) && Denote([Range(2, 1, 1)]) == {Gtid(2, 1)}
    ensures Canonical([]) && Denote([]) == {} && AllValid([Range(2, 1, 1)]) && AllValid([])
  {
    assert Denote([Range(1, 1, 1)]) == Range(1, 1, 1).Points() + Denote([]);
    assert Denote([Range(2, 1, 1)]) == Range(2, 1, 1).Points() + Denote([]);
    assert Range(1, 1, 1).Points() == {Gtid(1, 1)} && Range(2, 1, 1).Points() == {Gtid(2, 1)};
  }

  lemma SingleTransaction(t: Transaction, e: Event)
    requires t.events == [e]
    ensures Events([t]) == [e] && Gtids([t]) == {t.gtid} && DistinctGtids([t])
    ensures forall c :: ApplyAll(Events([t]), c) == Apply(e, c) && (Clean(Events([t]), c) <==> Fits(e, c))
    ensures Events([]) == [] && Gtids([]) == {} && DistinctGtids([])
    ensures forall c :: ApplyAll(Events([]), c) == c && Clean(Events([]), c)
  {
    assert Events([t]) == t.events + Events([]);
    assert [e][1..] == [];
  }

  lemma SplitFiles() returns (files: seq<BinlogFile>)
    ensures files == [BinlogFile([], [MINE]), BinlogFile([Range(2, 1, 1)], [])]
    ensures Trxs(files) == [MINE] && Trxs(files[..0]) == [] && Trxs(files[..1]) == [MINE]
    ensures HeadersAgree(files, {})
  {
    hide Denote;
    SingleTexts();
    files := [BinlogFile([], [MINE]), BinlogFile([Range(2, 1, 1)], [])];
    var one := [BinlogFile([], [MINE])];
    assert files[..0] == [] && files[..1] == one && one[..0] == [];
    assert Trxs(one) == [] + [MINE];
    assert Trxs(files) == Trxs(files[..1]) + [];
    SingleTransaction(MINE, Insert(ROW, ["mine"]));
  }

  /**
   Both servers have inserted the same row. The insertion here is undone, and the master's is
   replicated, although it does not fit as long as the other one is there.
   */
  method SplitBrain() returns (server: Server, r: Outcome)
    ensures fresh(server) && server.Valid() && r.Done?
    ensures server.contents == map[ROW := ["theirs"]] && Denote(server.executed) == {Gtid(1, 1)}
  {
    hide Denote, Canonical, Clean, ApplyAll, Trxs, Events, Gtids, HeadersAgree, DistinctGtids;
    var mine, theirs := Insert(ROW, ["mine"]), Insert(ROW, ["theirs"]);
    SingleTexts();
    SingleTransaction(MINE, mine);
    SingleTransaction(THEIRS, theirs);
    ghost var files := SplitFiles();
    server := new Server;
    server.contents := map[ROW := ["mine"]];
    server.files := [BinlogFile([], [MINE]), BinlogFile([Range(2, 1, 1)], [])];
    server.executed, server.purged, server.logged := [Range(2, 1, 1)], [], [Range(2, 1, 1)];
    server.base, server.lost := map[], {};
    assert Coherent(server.contents, files, {Gtid(2, 1)}, {}, {Gtid(2, 1)}, map[], {});
    OnlyTheFirst(files);
    r := server.RewindAndResume([Range(1, 1, 1)], [3, 4, 5], [THEIRS], map[], []);
  }

  lemma OnlyTheFirst(files: seq<BinlogFile>)
    requires |files| == 2 && Trxs(files[..0]) == [] && Trxs(files[..1]) == [MINE]
    ensures forall k :: 0 <= k < 2 && ErrantFree(files[..k], {}, {Gtid(1, 1)}) ==> k == 0
    ensures Missing([THEIRS], Gtids([] + Trxs(files[..0]))) == [THEIRS]
  {
    hide Trxs;
    SingleTransaction(MINE, Insert(ROW, ["mine"]));
    forall k | 0 <= k < 2 && ErrantFree(files[..k], {}, {Gtid(1, 1)}) ensures k == 0 {
      assert MINE.gtid in Gtids([MINE]);
    }
    assert [] + Trxs(files[..0]) == [];
    assert [THEIRS][1..] == [];
  }
}
