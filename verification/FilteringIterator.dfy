/** The symbol iterators that stop only at symbols of one class,
    include/luthier/Object/AMDGCNObjectFile.h:198-218 and 408-450. */
module FilteringIterator {

  /** What a symbol checker answers: a flag, an error, or the end of the process. */
  datatype Check = Is(yes: bool) | Fails | Aborts

  /** The shared `Err`: an error stays until its owner takes it. */
  datatype Status = Good | Failed | Aborted

  type Checker = nat -> Check

  /** Where the search for a symbol of the class stops: at such a symbol, at one
      whose check fails, or at the end `n`. */
  function Stop(check: Checker, n: nat, i: nat): (p: nat)
    requires i <= n
    ensures i <= p <= n
    ensures p < n ==> check(p) != Is(false)
    ensures forall k :: i <= k < p ==> check(k) == Is(false)
    decreases n - i
  {
    if i < n && check(i) == Is(false) then Stop(check, n, i + 1) else i
  }

  /** The status after a search that stopped at `p`. */
  function After(check: Checker, n: nat, p: nat, before: Status): Status {
    if p < n && check(p) == Fails then Failed
    else if p < n && check(p) == Aborts then Aborted
    else before
  }

  function BeginAt(check: Checker, n: nat): nat {
    var p := Stop(check, n, 0);
    if p < n && check(p) == Fails then n else p
  }

  class SymbolIterator {
    const check: Checker
    const end: nat
    var pos: nat
    var err: Status

    ghost predicate Valid()
      reads this
    {
      pos <= end
    }

    /** `*_begin`: a failed check reports the error and gives the end iterator. */
    constructor Begin(check: Checker, end: nat)
      ensures Valid() && this.check == check && this.end == end
      ensures pos == BeginAt(check, end)
      ensures err == After(check, end, Stop(check, end, 0), Good)
    {
      this.check, this.end := check, end;
      var i: nat, status := 0, Good;
      while i != end
        invariant i <= end && Stop(check, end, i) == Stop(check, end, 0)
        decreases end - i
      {
        match check(i)
        case Fails => status := Failed; break;
        case Aborts => status := Aborted; break;
        case Is(yes) => if yes { break; }
        i := i + 1;
      }
      pos := if status == Failed then end else i;
      err := status;
    }

    /** `operator++`: a failed check reports the error and stays at the symbol. */
    method Advance()
      requires Valid()
      modifies this
      ensures Valid()
      ensures pos == if old(pos) == end then end else Stop(check, end, old(pos) + 1)
      ensures err == if old(pos) == end then old(err) else After(check, end, pos, old(err))
    {
      if pos == end { return; }
      pos := pos + 1;
      ghost var from := pos;
      while pos != end
        invariant from <= pos <= end && Stop(check, end, pos) == Stop(check, end, from)
        invariant err == old(err)
        decreases end - pos
      {
        match check(pos)
        case Fails => err := Failed; return;
        case Aborts => err := Aborted; return;
        case Is(yes) => if yes { return; }
        pos := pos + 1;
      }
    }
  }

  /** The positions a loop visits once it stands at `p`. */
  function Rest(check: Checker, n: nat, p: nat): seq<nat>
    requires p <= n
    decreases n - p
  {
    if p == n then [] else [p] + Rest(check, n, Stop(check, n, p + 1))
  }

  /** The positions that a range-based loop visits. */
  function RangeFor(check: Checker, n: nat): seq<nat> {
    Rest(check, n, BeginAt(check, n))
  }

  /** The positions from `i` on whose symbol is of the class, in order, each once. */
  function Filter(check: Checker, n: nat, i: nat): seq<nat>
    requires i <= n
    decreases n - i
  {
    if i == n then []
    else if check(i) == Is(true) then [i] + Filter(check, n, i + 1)
    else Filter(check, n, i + 1)
  }

  /** In table order, each once, and no other. */
  lemma {:induction false} FilterIs(check: Checker, n: nat, i: nat)
    requires i <= n
    ensures var r := Filter(check, n, i);
            && (forall j: nat :: j in r <==> i <= j < n && check(j) == Is(true))
            && (forall k, m :: 0 <= k < m < |r| ==> r[k] < r[m])
    decreases n - i
  {
    if i < n {
      FilterIs(check, n, i + 1);
      var rest := Filter(check, n, i + 1);
      assert forall k :: 0 <= k < |rest| ==> rest[k] in rest;
    }
  }

  ghost predicate NoFailure(check: Checker, n: nat) {
    forall i :: 0 <= i < n ==> check(i) != Fails
  }

  ghost predicate NoAbort(check: Checker, n: nat) {
    forall i :: 0 <= i < n ==> check(i) != Aborts
  }

  /** A loop that has visited `out` and stands at `p` has missed nothing so far. */
  ghost predicate OnTrack(check: Checker, n: nat, out: seq<nat>, p: nat) {
    p <= n && out + Rest(check, n, p) == RangeFor(check, n)
  }

  lemma StaysOnTrack(check: Checker, n: nat, out: seq<nat>, p: nat)
    requires OnTrack(check, n, out, p) && p < n
    ensures OnTrack(check, n, out + [p], Stop(check, n, p + 1))
  {
    var rest := Rest(check, n, Stop(check, n, p + 1));
    assert out + ([p] + rest) == (out + [p]) + rest;
  }

  /** So far no check has failed, and `out` are the symbols of the class before `p`. */
  ghost predicate Clean(check: Checker, n: nat, out: seq<nat>, p: nat) {
    && p <= n && out + Filter(check, n, p) == Filter(check, n, 0)
    && (forall i :: 0 <= i < p ==> check(i) != Fails) && (p < n ==> check(p) != Fails)
  }

  lemma StartsClean(check: Checker, n: nat, p: nat)
    requires p == Stop(check, n, 0) && (p < n ==> check(p) != Fails)
    ensures Clean(check, n, [], p)
  {
    FilterSkips(check, n, 0);
  }

  lemma StaysClean(check: Checker, n: nat, out: seq<nat>, p: nat, q: nat)
    requires Clean(check, n, out, p) && p < n && check(p) == Is(true) && q == Stop(check, n, p + 1)
    requires q < n ==> check(q) != Fails
    ensures Clean(check, n, out + [p], q)
  {
    FilterSkips(check, n, p + 1);
    assert out + ([p] + Filter(check, n, p + 1)) == (out + [p]) + Filter(check, n, p + 1);
  }

  ghost predicate Tracks(check: Checker, n: nat, out: seq<nat>, p: nat, err: Status) {
    && OnTrack(check, n, out, p)
    && (err == Aborted ==> !NoAbort(check, n)) && (err == Failed ==> !NoFailure(check, n))
    && (err == Good ==> Clean(check, n, out, p) && (p < n ==> check(p) == Is(true)))
  }

  lemma KeepsTrack(check: Checker, n: nat, out: seq<nat>, p: nat, err: Status)
    requires Tracks(check, n, out, p, err) && p < n && err != Aborted
    ensures var q := Stop(check, n, p + 1); Tracks(check, n, out + [p], q, After(check, n, q, err))
  {
    StaysOnTrack(check, n, out, p);
    var q := Stop(check, n, p + 1);
    if After(check, n, q, err) == Good { StaysClean(check, n, out, p, q); }
  }

  lemma StartsOnTrack(check: Checker, n: nat)
    ensures Tracks(check, n, [], BeginAt(check, n), After(check, n, Stop(check, n, 0), Good))
  {
    var p := Stop(check, n, 0);
    if p == n || check(p) != Fails { StartsClean(check, n, p); }
  }

  /** A range-based loop whose body does not look at `Err`.  When `Err` is clear
      afterwards, the loop has visited exactly the symbols of the class. */
  method Enumerate(check: Checker, n: nat) returns (out: seq<nat>, err: Status)
    ensures (err == Aborted ==> !NoAbort(check, n)) && (err == Failed ==> !NoFailure(check, n))
    ensures err != Aborted ==> out == RangeFor(check, n)
    ensures err == Good ==> out == Filter(check, n, 0) && NoFailure(check, n)
  {
    var it := new SymbolIterator.Begin(check, n);
    out := [];
    StartsOnTrack(check, n);
    while it.pos != n && it.err != Aborted
      invariant it.Valid() && it.check == check && it.end == n
      invariant Tracks(check, n, out, it.pos, it.err)
      decreases n - it.pos
    {
      var p := it.pos;
      ghost var q, err1 := Stop(check, n, p + 1), After(check, n, Stop(check, n, p + 1), it.err);
      assert Tracks(check, n, out + [p], q, err1) by { KeepsTrack(check, n, out, p, it.err); }
      out := out + [p];
      it.Advance();
      assert it.pos == q && it.err == err1;
    }
    err := it.err;
  }

  /** The search passes over no symbol of the class. */
  lemma {:induction false} FilterSkips(check: Checker, n: nat, i: nat)
    requires i <= n
    ensures Filter(check, n, i) == Filter(check, n, Stop(check, n, i))
    decreases n - i
  {
    if i < n && check(i) == Is(false) { FilterSkips(check, n, i + 1); }
  }

  // ----- what a loop sees -----

  lemma {:induction false} RestIsFilter(check: Checker, n: nat, p: nat)
    requires p <= n && NoFailure(check, n) && NoAbort(check, n) && p == Stop(check, n, p)
    ensures Rest(check, n, p) == Filter(check, n, p)
    decreases n - p
  {
    if p < n {
      var q := Stop(check, n, p + 1);
      FilterSkips(check, n, p + 1);
      StopStops(check, n, p + 1);
      RestIsFilter(check, n, q);
    }
  }

  lemma StopStops(check: Checker, n: nat, i: nat)
    requires i <= n
    ensures Stop(check, n, Stop(check, n, i)) == Stop(check, n, i)
  {
  }

  /** A loop that has begun also visits every symbol whose check fails. */
  lemma {:induction false} FailureVisited(check: Checker, n: nat, p: nat, e: nat)
    requires p <= e < n && check(e) == Fails
    ensures e in Rest(check, n, p)
    decreases n - p
  {
    if p < e {
      var q := Stop(check, n, p + 1);
      assert q <= e;
      FailureVisited(check, n, q, e);
    }
  }

  /** Exactly when the loop visits the symbols of the class and no others: no
      check fails, or there is no such symbol at all. */
  lemma EnumerationExact(check: Checker, n: nat)
    requires NoAbort(check, n)
    ensures RangeFor(check, n) == Filter(check, n, 0) <==>
              NoFailure(check, n) || (forall i :: 0 <= i < n ==> check(i) != Is(true))
  {
    var p := Stop(check, n, 0);
    FilterIs(check, n, 0);
    if NoFailure(check, n) {
      FilterSkips(check, n, 0);
      StopStops(check, n, 0);
      RestIsFilter(check, n, p);
    } else if p == n || check(p) == Fails {
      assert RangeFor(check, n) == [];
      if Filter(check, n, 0) != [] {
        assert Filter(check, n, 0)[0] in Filter(check, n, 0);
      }
    } else {
      var e :| 0 <= e < n && check(e) == Fails;
      FailureVisited(check, n, p, e);
      assert check(p) == Is(true);
    }
  }
}
