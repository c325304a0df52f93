/** Every request of the CPU ends, in done or in timeout, exactly when the watchdog can count to its limit. */
module BusLiveness {
  import opened Isa
  import opened BusParts
  import opened BusAccess

  // ---- The watchdog -------------------------------------------------------------------------------

  /** The counter register can hold the limit. */
  predicate Holds(allowed: nat) { allowed < Pow2(Clog2(allowed)) }

  lemma {:induction false} Pow2Grows(j: nat, k: nat)
    requires j < k
    ensures 2 * Pow2(j) <= Pow2(k)
    decreases k
  {
    if j < k - 1 {
      Pow2Grows(j, k - 1);
    }
  }

  /** With $clog2 bits the counter holds every limit but the powers of two. */
  lemma HoldsAllButPowers(allowed: nat)
    requires allowed >= 2
    ensures Holds(allowed) <==> forall k: nat :: Pow2(k) != allowed
  {
    var c := Clog2(allowed);
    assert c > 0 && Pow2(c - 1) < allowed <= Pow2(c);
    forall k: nat | Pow2(k) == allowed ensures k == c {
      if k < c - 1 {
        Pow2Grows(k, c - 1);
      } else if k > c {
        Pow2Grows(c, k);
      }
    }
  }

  /** The watchdog after `n` edges at which the bus is driven and nobody answers. */
  function Unanswered(w: Watchdog, allowed: nat, n: nat): Watchdog
    decreases n
  {
    if n == 0 then w else Unanswered(NextDog(w, allowed, true, false, false), allowed, n - 1)
  }

  predicate DogOk(w: Watchdog, allowed: nat) { w.counter <= allowed }

  /** Edges until the watchdog notifies. */
  function Patience(w: Watchdog, allowed: nat): nat
    requires DogOk(w, allowed)
  {
    match w.state
    case DogIdle => allowed - w.counter + 2
    case Counting => allowed - w.counter + 1
    case Notifying => 0
  }

  lemma BelowModulus(x: nat, p: nat)
    requires x < p
    ensures x % p == x
  {
  }

  lemma DogEdge(w: Watchdog, allowed: nat, rd: bool, wr: bool, fc: bool)
    requires DogOk(w, allowed) && allowed >= 2 && Holds(allowed)
    ensures DogOk(NextDog(w, allowed, rd, wr, fc), allowed)
    ensures (rd || wr) && !fc && !w.state.Notifying? ==>
              Patience(NextDog(w, allowed, rd, wr, fc), allowed) == Patience(w, allowed) - 1
  {
    var p := Pow2(Clog2(allowed));
    BelowModulus(1, p);
    if w.counter < allowed {
      BelowModulus(w.counter + 1, p);
    }
  }

  lemma {:induction false} DogCounts(w: Watchdog, allowed: nat, n: nat)
    requires DogOk(w, allowed) && allowed >= 2 && Holds(allowed) && n <= Patience(w, allowed)
    ensures var u := Unanswered(w, allowed, n);
      DogOk(u, allowed) && Patience(u, allowed) == Patience(w, allowed) - n
    decreases n
  {
    if n > 0 {
      DogEdge(w, allowed, true, false, false);
      DogCounts(NextDog(w, allowed, true, false, false), allowed, n - 1);
    }
  }

  /** A counter that cannot hold the limit wraps around below it. */
  lemma {:induction false} DogSleeps(w: Watchdog, allowed: nat, n: nat)
    requires w.counter < allowed && !w.state.Notifying? && allowed >= 2 && !Holds(allowed)
    ensures var u := Unanswered(w, allowed, n); u.counter < allowed && !u.state.Notifying?
    decreases n
  {
    if n > 0 {
      var v := NextDog(w, allowed, true, false, false);
      assert Pow2(Clog2(allowed)) == allowed;
      DogSleeps(v, allowed, n - 1);
    }
  }

  /** From reset, a request that nobody answers is reported exactly when the limit is not a power
      of two, and then after ALLOWED_CYCLES + 2 edges. */
  lemma WatchdogFiresIff(allowed: nat)
    requires allowed >= 2
    ensures (exists n: nat :: Unanswered(Watchdog(DogIdle, 0), allowed, n).state.Notifying?)
            <==> (forall k: nat :: Pow2(k) != allowed)
    ensures Holds(allowed) ==>
              forall n: nat :: n <= allowed + 2 ==>
                (Unanswered(Watchdog(DogIdle, 0), allowed, n).state.Notifying? <==> n == allowed + 2)
  {
    HoldsAllButPowers(allowed);
    var w := Watchdog(DogIdle, 0);
    if Holds(allowed) {
      forall n: nat | n <= allowed + 2
        ensures Unanswered(w, allowed, n).state.Notifying? <==> n == allowed + 2
      {
        DogCounts(w, allowed, n);
      }
      assert Unanswered(w, allowed, allowed + 2).state.Notifying?;
    } else {
      forall n: nat ensures !Unanswered(w, allowed, n).state.Notifying? {
        DogSleeps(w, allowed, n);
      }
    }
  }

  // ---- The watchdog after any run --------------------------------------------------------------------

  /** What the watchdog sees of the bus at an edge. */
  datatype Watched = Watched(rd: bool, wr: bool, fc: bool)

  function DogAfter(w: Watchdog, allowed: nat, bus: seq<Watched>): Watchdog
    decreases bus
  {
    if bus == [] then w else DogAfter(NextDog(w, allowed, bus[0].rd, bus[0].wr, bus[0].fc), allowed, bus[1..])
  }

  /** The access that ended last was reported, and not answered; `was` says so of those before the run. */
  predicate Reported(w: Watchdog, allowed: nat, bus: seq<Watched>, was: bool)
    decreases bus
  {
    if bus == [] then was
    else
      var n := NextDog(w, allowed, bus[0].rd, bus[0].wr, bus[0].fc);
      Reported(n, allowed, bus[1..], if !w.state.DogIdle? && n.state.DogIdle? then w.state.Notifying? else was)
  }

  /** The counter of a watchdog at rest. */
  predicate RestsAt(w: Watchdog, reported: bool) {
    w.state.DogIdle? ==> w.counter == if reported then 1 else 0
  }

  lemma {:induction false} RestsAtOneOrZero(w: Watchdog, allowed: nat, bus: seq<Watched>, was: bool)
    requires allowed >= 2 && Holds(allowed) && DogOk(w, allowed) && RestsAt(w, was)
    ensures var u := DogAfter(w, allowed, bus); DogOk(u, allowed) && RestsAt(u, Reported(w, allowed, bus, was))
    decreases bus
  {
    if bus != [] {
      var n := NextDog(w, allowed, bus[0].rd, bus[0].wr, bus[0].fc);
      DogEdge(w, allowed, bus[0].rd, bus[0].wr, bus[0].fc);
      BelowModulus(1, Pow2(Clog2(allowed)));
      RestsAtOneOrZero(n, allowed, bus[1..],
                       if !w.state.DogIdle? && n.state.DogIdle? then w.state.Notifying? else was);
    }
  }

  /** After any run from reset that leaves the watchdog idle, an access that nobody answers is reported after
      exactly ALLOWED_CYCLES + 2 edges; or after one less, when the access before it was itself reported. */
  lemma PatienceAfterRun(allowed: nat, bus: seq<Watched>)
    requires allowed >= 2 && Holds(allowed) && DogAfter(Watchdog(DogIdle, 0), allowed, bus).state.DogIdle?
    ensures var u, late := DogAfter(Watchdog(DogIdle, 0), allowed, bus),
                           if Reported(Watchdog(DogIdle, 0), allowed, bus, false) then 1 else 0;
      forall n: nat :: n <= allowed + 2 - late ==>
        (Unanswered(u, allowed, n).state.Notifying? <==> n == allowed + 2 - late)
  {
    var reset := Watchdog(DogIdle, 0);
    RestsAtOneOrZero(reset, allowed, bus, false);
    var u, late := DogAfter(reset, allowed, bus), if Reported(reset, allowed, bus, false) then 1 else 0;
    assert Patience(u, allowed) == allowed + 2 - late;
    forall n: nat | n <= allowed + 2 - late
      ensures Unanswered(u, allowed, n).state.Notifying? <==> n == allowed + 2 - late
    {
      DogCounts(u, allowed, n);
    }
  }

  /** A watchdog whose counter cannot hold the limit reports nothing, whatever happens on the bus. */
  lemma {:induction false} NeverReports(w: Watchdog, allowed: nat, bus: seq<Watched>)
    requires allowed >= 2 && !Holds(allowed) && w.counter < allowed && !w.state.Notifying?
    ensures !DogAfter(w, allowed, bus).state.Notifying?
    decreases bus
  {
    if bus != [] {
      assert Pow2(Clog2(allowed)) == allowed;
      NeverReports(NextDog(w, allowed, bus[0].rd, bus[0].wr, bus[0].fc), allowed, bus[1..]);
    }
  }

  // ---- Requests --------------------------------------------------------------------------------------

  /** The DMA is silent, and the CPU shows one request all the time. */
  predicate Quiet(es: seq<Edge>, q: Request) {
    forall e :: e in es ==> !e.d.req && e.q == q
  }

  /** Edges until the request is answered, at most. */
  function Remaining(b: Bus, allowed: nat): nat
    requires DogOk(b.dog, allowed)
  {
    match b.port.state
    case WaitingReq => allowed + 5
    case WaitingBus => allowed + 4
    case WaitingAck => Patience(b.dog, allowed) + 1
    case Answered => 0
  }

  /** A pending request comes nearer to its answer at every edge, unless the DMA has the bus. */
  lemma GrantedEdge(r: Range, allowed: nat, b: Bus, e: Edge)
    requires DogOk(b.dog, allowed) && allowed >= 2 && Holds(allowed) && Serving(r, b, e.q)
    requires e.q.Up() && !(e.q.rd && e.q.wr) && !b.port.state.Answered?
    ensures var n := NextBus(r, allowed, b, e.q, e.d, e.s);
      && DogOk(n.dog, allowed)
      && (if b.port.state.WaitingBus? && !Granted(b, e.d) then Remaining(n, allowed) == Remaining(b, allowed)
          else Remaining(n, allowed) < Remaining(b, allowed))
  {
    var l, fc := LinesOf(b, e.d), FcBus(r, b, e.d, e.s);
    DogEdge(b.dog, allowed, l.rd, l.wr, fc);
  }

  /** With the DMA silent and a limit the counter can hold, every request ends in done or timeout
      within ALLOWED_CYCLES + 5 edges, whatever the addressed slave does. */
  lemma {:induction false} RequestsEnd(r: Range, allowed: nat, b: Bus, es: seq<Edge>, q: Request)
    requires DogOk(b.dog, allowed) && allowed >= 2 && Holds(allowed) && Serving(r, b, q)
    requires q.Up() && !(q.rd && q.wr) && Quiet(es, q) && |es| >= Remaining(b, allowed)
    ensures exists k: nat :: k <= Remaining(b, allowed) && After(r, allowed, b, es[..k]).port.state.Answered?
    decreases es
  {
    if b.port.state.Answered? {
      assert After(r, allowed, b, es[..0]).port.state.Answered?;
    } else {
      var e := es[0];
      var n := NextBus(r, allowed, b, e.q, e.d, e.s);
      assert e in es;
      GrantedEdge(r, allowed, b, e);
      ServingKept(r, allowed, b, q, e.d, e.s, q);
      RequestsEnd(r, allowed, n, es[1..], q);
      var k: nat :| k <= Remaining(n, allowed) && After(r, allowed, n, es[1..][..k]).port.state.Answered?;
      assert es[..k + 1][1..] == es[1..][..k] && es[..k + 1][0] == e;
      assert After(r, allowed, b, es[..k + 1]).port.state.Answered?;
    }
  }

  lemma GrantedMissEdge(r: Range, allowed: nat, b: Bus, e: Edge)
    requires DogOk(b.dog, allowed) && allowed >= 2 && Holds(allowed) && Serving(r, b, e.q)
    requires b.port.state.WaitingAck? && !r.Hit(b.port.mar) && !e.s.fc && !b.dog.state.Notifying?
    ensures var n := NextBus(r, allowed, b, e.q, e.d, e.s);
      n.port == b.port && DogOk(n.dog, allowed) && Patience(n.dog, allowed) == Patience(b.dog, allowed) - 1
  {
    GrantedLines(b, e.d);
    SlaveAnswers(r, allowed, b, e.q, e.d, e.s);
    DogEdge(b.dog, allowed, !b.port.isWr, b.port.isWr, false);
  }

  /** A slave outside the memory that first acknowledges the granted request at edge `k` is heard if and only if
      the watchdog has not notified by then: the request ends at that edge in done, a read with the data of the slave.
      Otherwise it ends in a timeout when the watchdog notifies. */
  lemma {:induction false} SlaveHeardIff(r: Range, allowed: nat, b: Bus, es: seq<Edge>, q: Request, k: nat)
    requires DogOk(b.dog, allowed) && allowed >= 2 && Holds(allowed) && Serving(r, b, q)
    requires b.port.state.WaitingAck? && !r.Hit(b.port.mar)
    requires k < |es| && es[k].s.fc && forall j :: 0 <= j < k ==> !es[j].s.fc
    requires forall e :: e in es ==> e.q == q
    ensures var p := Patience(b.dog, allowed);
      var end := if k < p then k else p;
      var last := After(r, allowed, b, es[..end + 1]).port;
      && (forall j :: 0 <= j <= end ==> After(r, allowed, b, es[..j]).port == b.port)
      && last.state.Answered? && (last.done <==> k < p) && (last.timeout <==> k >= p)
      && (last.done && q.rd ==> last.mdr == es[k].s.data)
    decreases es
  {
    var e := es[0];
    var n, p := NextBus(r, allowed, b, e.q, e.d, e.s), Patience(b.dog, allowed);
    assert e in es;
    assert After(r, allowed, b, es[..0]) == b;
    if k == 0 || p == 0 {
      SlaveAnswers(r, allowed, b, q, e.d, e.s);
      assert es[..1] == [e] && After(r, allowed, b, [e]) == After(r, allowed, n, []);
    } else {
      var end := if k < p then k else p;
      GrantedMissEdge(r, allowed, b, e);
      ServingKept(r, allowed, b, q, e.d, e.s, q);
      SlaveHeardIff(r, allowed, n, es[1..], q, k - 1);
      FromSecond(r, allowed, b, es, end + 1);
      forall j | 0 <= j <= end ensures After(r, allowed, b, es[..j]).port == b.port {
        if j > 0 {
          FromSecond(r, allowed, b, es, j);
        }
      }
    }
  }

  lemma FromSecond(r: Range, allowed: nat, b: Bus, es: seq<Edge>, j: nat)
    requires 0 < j <= |es|
    ensures var n := NextBus(r, allowed, b, es[0].q, es[0].d, es[0].s);
      After(r, allowed, b, es[..j]) == After(r, allowed, n, es[1..][..j - 1])
  {
    assert es[..j][1..] == es[1..][..j - 1] && es[..j][0] == es[0];
  }

  /** The limit matters: when it is a power of two, a request to an address where nobody answers
      is pending for ever. */
  lemma {:induction false} RequestsHang(r: Range, allowed: nat, b: Bus, es: seq<Edge>, q: Request)
    requires allowed >= 2 && !Holds(allowed) && b.dog.counter < allowed && !b.dog.state.Notifying?
    requires Serving(r, b, q) && Pending(b) && q.Up() && !(q.rd && q.wr) && !r.Hit(q.addr)
    requires Quiet(es, q) && forall e :: e in es ==> !e.s.fc
    ensures Pending(After(r, allowed, b, es))
    decreases es
  {
    if es != [] {
      var e := es[0];
      var n := NextBus(r, allowed, b, e.q, e.d, e.s);
      assert e in es;
      assert Pow2(Clog2(allowed)) == allowed;
      HangingEdge(r, allowed, b, e);
      ServingKept(r, allowed, b, q, e.d, e.s, q);
      RequestsHang(r, allowed, n, es[1..], q);
    }
  }

  lemma HangingEdge(r: Range, allowed: nat, b: Bus, e: Edge)
    requires allowed >= 2 && Pow2(Clog2(allowed)) == allowed && b.dog.counter < allowed && !b.dog.state.Notifying?
    requires Serving(r, b, e.q) && Pending(b) && !r.Hit(e.q.addr) && !e.s.fc && !e.d.req
    ensures var n := NextBus(r, allowed, b, e.q, e.d, e.s);
      Pending(n) && n.dog.counter < allowed && !n.dog.state.Notifying?
  {
  }

  // ---- A timeout that reaches the wrong master -----------------------------------------------------------

  /** The bus out of reset. */
  predicate JustReset(b: Bus) {
    && b.port.state.WaitingReq? && !b.port.busReq && !b.port.done && !b.port.timeout
    && b.owner.Nobody? && !b.served && b.dog == Watchdog(DogIdle, 0)
  }

  /** The DMA reads where nobody answers, while the CPU asks for `q`. */
  function Stall(q: Request, l: Lines, k: nat): seq<Edge> {
    seq(k, _ => Edge(q, Dma(true, l, 0), Slave(false, 0)))
  }

  /** The CPU waits behind the DMA, and the watchdog counts for the DMA. */
  predicate Stalled(b: Bus, q: Request, dog: Watchdog) {
    && b.port.state.WaitingBus? && b.port.busReq && !b.port.done && !b.port.timeout && Latched(b.port, q)
    && b.owner.DmaOwns? && !b.served && b.dog == dog
  }

  lemma StallBegins(r: Range, allowed: nat, b: Bus, q: Request, l: Lines)
    requires JustReset(b) && q.rd != q.wr && l.rd && !l.wr && !r.Hit(l.addr)
    ensures Stalled(NextBus(r, allowed, b, q, Dma(true, l, 0), Slave(false, 0)), q,
                    NextDog(b.dog, allowed, true, false, false))
  {
  }

  lemma StallGoesOn(r: Range, allowed: nat, b: Bus, q: Request, l: Lines)
    requires Stalled(b, q, b.dog) && l.rd && !l.wr && !r.Hit(l.addr)
    ensures Stalled(NextBus(r, allowed, b, q, Dma(true, l, 0), Slave(false, 0)), q,
                    NextDog(b.dog, allowed, true, false, false))
  {
  }

  lemma {:induction false} StallLasts(r: Range, allowed: nat, b: Bus, q: Request, l: Lines, k: nat)
    requires Stalled(b, q, b.dog) && l.rd && !l.wr && !r.Hit(l.addr)
    ensures Stalled(After(r, allowed, b, Stall(q, l, k)), q, Unanswered(b.dog, allowed, k))
    decreases k
  {
    if k > 0 {
      var n := NextBus(r, allowed, b, q, Dma(true, l, 0), Slave(false, 0));
      StallGoesOn(r, allowed, b, q, l);
      StallLasts(r, allowed, n, q, l, k - 1);
      assert Stall(q, l, k)[1..] == Stall(q, l, k - 1);
    }
  }

  /** A watchdog that is counting leaks from the edge on at which it has counted to its limit. */
  lemma {:induction false} DogLeaksIff(w: Watchdog, allowed: nat, j: nat)
    requires DogOk(w, allowed) && allowed >= 2 && Holds(allowed) && !w.state.DogIdle?
    ensures var u := Unanswered(w, allowed, j);
      u.state.Notifying? || (u.state.Counting? && u.counter == allowed) <==> j + 1 >= Patience(w, allowed)
    decreases j
  {
    if j > 0 {
      DogEdge(w, allowed, true, false, false);
      DogLeaksIff(NextDog(w, allowed, true, false, false), allowed, j - 1);
    }
  }

  lemma {:induction false} AfterBoth(r: Range, allowed: nat, b: Bus, es: seq<Edge>, fs: seq<Edge>)
    ensures After(r, allowed, b, es + fs) == After(r, allowed, After(r, allowed, b, es), fs)
    decreases es
  {
    if es == [] {
      assert es + fs == fs;
    } else {
      assert (es + fs)[1..] == es[1..] + fs;
      AfterBoth(r, allowed, NextBus(r, allowed, b, es[0].q, es[0].d, es[0].s), es[1..], fs);
    }
  }

  lemma StallCounts(r: Range, allowed: nat, b: Bus, q: Request, l: Lines, k: nat)
    requires JustReset(b) && q.rd != q.wr && l.rd && !l.wr && !r.Hit(l.addr)
    requires allowed >= 2 && Holds(allowed) && k >= 1
    ensures var w := After(r, allowed, b, Stall(q, l, k));
      Stalled(w, q, w.dog) && (Leaking(allowed, w) <==> k > allowed)
  {
    var n := NextBus(r, allowed, b, q, Dma(true, l, 0), Slave(false, 0));
    StallBegins(r, allowed, b, q, l);
    StallLasts(r, allowed, n, q, l, k - 1);
    assert Stall(q, l, k)[1..] == Stall(q, l, k - 1) && Stall(q, l, k)[0] == Edge(q, Dma(true, l, 0), Slave(false, 0));
    DogLeaksIff(n.dog, allowed, k - 1);
  }

  lemma TwoEdges(r: Range, allowed: nat, b: Bus, e: Edge, f: Edge)
    ensures After(r, allowed, b, [e, f])
            == NextBus(r, allowed, NextBus(r, allowed, b, e.q, e.d, e.s), f.q, f.d, f.s)
  {
    var n := NextBus(r, allowed, b, e.q, e.d, e.s);
    assert [e, f][1..] == [f] && [f][1..] == [];
    assert After(r, allowed, n, [f]) == After(r, allowed, NextBus(r, allowed, n, f.q, f.d, f.s), []);
  }

  lemma StalledGrant(r: Range, allowed: nat, w: Bus, q: Request, l: Lines, s: Slave, s': Slave)
    requires Stalled(w, q, w.dog) && r.Hit(q.addr)
    ensures var silent := Dma(false, l, 0);
      var e := NextBus(r, allowed, NextBus(r, allowed, w, q, silent, s), q, silent, s');
      e.port.state.Answered? && e.port.done != e.port.timeout && (e.port.timeout <==> Leaking(allowed, w))
  {
    var silent := Dma(false, l, 0);
    TimeoutLeaksIff(r, allowed, w, q, silent, s, silent, s');
  }

  /** From reset, the DMA reads for `k` edges where nobody answers and then falls silent, and the CPU
      asks for a RAM address all the time. Two edges later the CPU has its answer, and it is a timeout
      exactly when the DMA went on for more than ALLOWED_CYCLES edges. */
  lemma StallLeaksIff(r: Range, allowed: nat, b: Bus, q: Request, l: Lines, k: nat, s: Slave, s': Slave)
    requires JustReset(b) && q.rd != q.wr && r.Hit(q.addr) && l.rd && !l.wr && !r.Hit(l.addr)
    requires allowed >= 2 && Holds(allowed) && k >= 1
    ensures var silent := Dma(false, l, 0);
      var e := After(r, allowed, b, Stall(q, l, k) + [Edge(q, silent, s), Edge(q, silent, s')]);
      e.port.state.Answered? && e.port.done != e.port.timeout && (e.port.timeout <==> k > allowed)
  {
    var silent := Dma(false, l, 0);
    StallCounts(r, allowed, b, q, l, k);
    var w := After(r, allowed, b, Stall(q, l, k));
    AfterBoth(r, allowed, b, Stall(q, l, k), [Edge(q, silent, s), Edge(q, silent, s')]);
    TwoEdges(r, allowed, w, Edge(q, silent, s), Edge(q, silent, s'));
    StalledGrant(r, allowed, w, q, l, s, s');
  }

  /** Both ways to leak happen: with 3 allowed cycles and a RAM at address 0, a DMA read of
      0x80000000 leaks to the CPU's read of address 0 after 4 edges, when the watchdog has just counted
      to its limit, and after 5, when it is notifying. */
  lemma LeakingRuns(b: Bus, s: Slave)
    requires JustReset(b)
    ensures var r, q, l := Range(0, 1024), Request(true, false, 0, 0, 15), Lines(0x8000_0000, true, false, 15);
      var silent := Edge(q, Dma(false, l, 0), s);
      var b4, b5 := After(r, 3, b, Stall(q, l, 4)), After(r, 3, b, Stall(q, l, 5));
      && b4.dog == Watchdog(Counting, 3) && b5.dog == Watchdog(Notifying, 3)
      && After(r, 3, b, Stall(q, l, 4) + [silent, silent]).port.timeout
      && After(r, 3, b, Stall(q, l, 5) + [silent, silent]).port.timeout
  {
    var r, q, l := Range(0, 1024), Request(true, false, 0, 0, 15), Lines(0x8000_0000, true, false, 15);
    assert Clog2(3) == 2 by {
      assert Pow2(0) == 1 && Pow2(1) == 2 && Pow2(2) == 4;
      assert ClogFrom(3, 2) == 2 && ClogFrom(3, 1) == 2;
    }
    assert Holds(3) by { assert Pow2(2) == 4; }
    StallLeaksIff(r, 3, b, q, l, 4, s, s);
    StallLeaksIff(r, 3, b, q, l, 5, s, s);
    StallBegins(r, 3, b, q, l);
    var n := NextBus(r, 3, b, q, Dma(true, l, 0), Slave(false, 0));
    assert Stall(q, l, 4)[1..] == Stall(q, l, 3) && Stall(q, l, 5)[1..] == Stall(q, l, 4);
    StallLasts(r, 3, n, q, l, 3);
    StallLasts(r, 3, n, q, l, 4);
    DogWalk();
  }

  lemma DogWalk()
    requires Pow2(Clog2(3)) == 4
    ensures var w := NextDog(Watchdog(DogIdle, 0), 3, true, false, false);
      Unanswered(w, 3, 3) == Watchdog(Counting, 3) && Unanswered(w, 3, 4) == Watchdog(Notifying, 3)
  {
    var w3 := Watchdog(Counting, 3);
    assert NextDog(Watchdog(Counting, 2), 3, true, false, false) == w3;
    assert Unanswered(w3, 3, 0) == w3 && Unanswered(w3, 3, 1) == Watchdog(Notifying, 3);
    var w1, w2, last := Watchdog(Counting, 1), Watchdog(Counting, 2), Watchdog(Notifying, 3);
    assert Unanswered(w2, 3, 1) == w3 && Unanswered(w2, 3, 2) == last;
    assert Unanswered(w1, 3, 2) == w3 && Unanswered(w1, 3, 3) == last;
  }
}
