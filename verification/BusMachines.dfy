/** The clocked machines of the bus as objects whose registers a clock edge updates in place. */
module BusMachines {
  import opened Isa
  import opened BusParts
  import BusAccess

  class CpuInterface {
    var state: PortState
    var busReq: bool
    var mar: Word
    var mdr: Word
    var mask: bv4
    var isWr: bool
    var done: bool
    var timeout: bool

    function Value(): Port
      reads this
    {
      Port(state, busReq, mar, mdr, mask, isWr, done, timeout)
    }

    method OnClock(q: Request, grant: bool, dataBus: Word, fc: bool, watchdog: bool)
      modifies this
      ensures Value() == NextPort(old(Value()), q, grant, dataBus, fc, watchdog)
    {
      match state {
        case WaitingReq =>
          if q.rd || q.wr {
            state, busReq, mar, mask := WaitingBus, true, q.addr, q.mask;
            if q.wr {
              mdr := q.data;
            }
            isWr := q.wr;
          }
        case WaitingBus =>
          if grant {
            state := WaitingAck;
          }
        case WaitingAck =>
          if watchdog {
            state, timeout, busReq := Answered, true, false;
          } else if fc {
            state, done, busReq := Answered, true, false;
            if !isWr {
              mdr := dataBus;
            }
          }
        case Answered =>
          if !q.rd && !q.wr {
            state, done, timeout := WaitingReq, false, false;
          }
      }
    }
  }

  class Arbitrator {
    var state: Owner

    method OnClock(cpuReq: bool, dmaReq: bool)
      modifies this
      ensures state == NextOwner(old(state), cpuReq, dmaReq)
    {
      match state {
        case Nobody =>
          if cpuReq {
            state := CpuOwns;
          } else if dmaReq {
            state := DmaOwns;
          }
        case CpuOwns =>
          if !cpuReq {
            if dmaReq {
              state := DmaOwns;
            } else {
              state := Nobody;
            }
          }
        case DmaOwns =>
          if !dmaReq {
            if cpuReq {
              state := CpuOwns;
            } else {
              state := Nobody;
            }
          }
      }
    }
  }

  class MemoryInterface {
    /** STATE_DONE */
    var served: bool

    method OnClock(req: bool)
      modifies this
      ensures served == NextServed(old(served), req)
    {
      if !served {
        if req {
          served := true;
        }
      } else {
        if !req {
          served := false;
        }
      }
    }
  }

  class Ram {
    var memory: array<Quad>
    var dataOut: Word

    constructor (size: nat)
      ensures fresh(memory) && memory.Length == size
    {
      memory := new Quad[size](_ => Quad(0, 0, 0, 0));
      dataOut := 0;
    }

    method OnClock(wr: bool, wrMask: bv4, addr: Word, dataIn: Word, ghost words: Words)
      requires addr as int < memory.Length && Shows(memory[..], words)
      modifies this, memory
      ensures memory == old(memory) && dataOut == Join(old(memory[addr as int]))
      ensures Shows(memory[..], NextWords(words, wr, wrMask, addr, dataIn))
    {
      var i: nat := addr as int;
      var was := memory[i];
      ghost var before := memory[..];
      if wr {
        WriteShows(before, words, wrMask, addr, dataIn, i);
        memory[i] := WriteLanes(was, wrMask, dataIn);
        assert memory[..] == before[i := WriteLanes(before[i], wrMask, dataIn)];
      }
      dataOut := Join(was);
    }
  }

  /** The array holds the words of the model. */
  ghost predicate Shows(memory: seq<Quad>, words: Words) {
    forall i: Word :: i as int < |memory| ==> WordAt(words, i) == memory[i as int]
  }

  lemma WriteShowsAt(memory: seq<Quad>, words: Words, mask: bv4, addr: Word, d: Word, i: Word, m: nat, n: nat)
    requires m == addr as int < |memory| && n == i as int < |memory|
    requires WordAt(words, addr) == memory[m] && WordAt(words, i) == memory[n]
    ensures WordAt(NextWords(words, true, mask, addr, d), i) == memory[m := WriteLanes(memory[m], mask, d)][n]
  {
    if i == addr {
      BusAccess.WordWritten(words, mask, addr, d);
    } else {
      NumbersApart(i, addr);
      BusAccess.WordKept(words, mask, addr, d, i);
    }
  }

  lemma WriteShows(memory: seq<Quad>, words: Words, mask: bv4, addr: Word, d: Word, m: nat)
    requires Shows(memory, words) && m == addr as int < |memory|
    ensures Shows(memory[m := WriteLanes(memory[m], mask, d)], NextWords(words, true, mask, addr, d))
  {
    forall i: Word | i as int < |memory|
      ensures WordAt(NextWords(words, true, mask, addr, d), i)
              == memory[m := WriteLanes(memory[m], mask, d)][i as int]
    {
      WriteShowsAt(memory, words, mask, addr, d, i, m, i as int);
    }
  }

  lemma NumbersApart(i: Word, j: Word)
    requires i != j
    ensures i as int != j as int
  {
    assert (i as int) as bv32 == i && (j as int) as bv32 == j;
  }

  class WatchdogTimer {
    const allowed: nat
    var state: DogState
    var counter: nat

    constructor (cycles: nat)
      ensures allowed == cycles && Value() == Watchdog(DogIdle, 0)
    {
      allowed, state, counter := cycles, DogIdle, 0;
    }

    function Value(): BusParts.Watchdog
      reads this
    {
      BusParts.Watchdog(state, counter)
    }

    method OnClock(rd: bool, wr: bool, fc: bool)
      modifies this
      ensures Value() == NextDog(old(Value()), allowed, rd, wr, fc)
    {
      match state {
        case DogIdle =>
          if rd || wr {
            state := Counting;
          }
        case Counting =>
          if fc {
            counter, state := 0, DogIdle;
          } else if counter == allowed {
            state := Notifying;
          } else {
            counter := (counter + 1) % Pow2(Clog2(allowed));
          }
        case Notifying =>
          if !rd && !wr {
            counter, state := 1 % Pow2(Clog2(allowed)), DogIdle;
          }
      }
    }
  }
}
