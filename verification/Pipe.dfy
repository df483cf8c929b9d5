// The pipe of Ass2/pipe.c.  Each method is the code from taking the lock to releasing it,
// by returning or by sleeping.

module Pipe {
  import opened Codec

  const PIPESIZE := 512

  lemma Residue(k: nat, x: nat)
    requires x < 512
    ensures (512 * k + x) % 512 == x
  {
  }

  /** The counters are 32-bit and wrap; 512 divides the wrap, so slots line up. */
  lemma Slot(w: nat)
    ensures w % 0x1_0000_0000 % 512 == w % 512
  {
    var q, m := w / 0x1_0000_0000, w % 0x1_0000_0000;
    Residue(0x80_0000 * q + m / 512, m % 512);
    assert w == 512 * (0x80_0000 * q + m / 512) + m % 512;
  }

  /** Comparing wrapped counters decides empty and full. */
  lemma Compare(r: nat, w: nat)
    requires r <= w <= r + 512
    ensures w % 0x1_0000_0000 == r % 0x1_0000_0000 <==> w == r
    ensures w % 0x1_0000_0000 == (r % 0x1_0000_0000 + 512) % 0x1_0000_0000 <==> w == r + 512
  {
  }

  lemma Next(w: nat)
    ensures (w % 0x1_0000_0000 + 1) % 0x1_0000_0000 == (w + 1) % 0x1_0000_0000
  {
  }

  lemma SlotsDiffer(a: nat, b: nat)
    requires a < b < a + 512
    ensures a % 512 != b % 512
  {
  }

  datatype Outcome = Returned(n: int) | Asleep

  class Pipe {
    const data: array<Byte>
    var nread: nat
    var nwrite: nat
    var readopen: bool
    var writeopen: bool
    ghost var written: seq<Byte>     // every byte ever put in
    ghost var taken: seq<Byte>       // every byte ever handed to a reader
    ghost var readers: set<nat>      // threads asleep on &nread
    ghost var writers: set<nat>      // threads asleep on &nwrite

    /** What was read is what was written, in order, with at most 512 bytes in between. */
    ghost predicate Fifo()
      reads this, data
    {
      && data.Length == PIPESIZE
      && nread == |taken| % 0x1_0000_0000 && nwrite == |written| % 0x1_0000_0000
      && |taken| <= |written| <= |taken| + 512
      && taken == written[..|taken|]
      && forall k :: |taken| <= k < |written| ==> data[k % 512] == written[k]
    }

    /** Readers sleep only over an empty pipe, writers only over a full one. */
    ghost predicate SleepersOk()
      reads this
    {
      && (readers != {} ==> |written| == |taken| && writeopen)
      && (writers != {} ==> |written| == |taken| + 512 && readopen)
    }

    constructor ()
      ensures Fifo() && SleepersOk() && written == [] && readers == {} && writers == {} && readopen && writeopen &&
        fresh(data)
    {
      data := new Byte[PIPESIZE];
      nread, nwrite, readopen, writeopen := 0, 0, true, true;
      written, taken, readers, writers := [], [], {}, {};
    }

    /** p->data[p->nwrite++ % PIPESIZE] = c, when not full. */
    method Put(c: Byte)
      requires Fifo() && |written| < |taken| + 512
      modifies this`nwrite, this`written, data
      ensures Fifo() && written == old(written) + [c]
    {
      Slot(|written|);
      Next(|written|);
      data[nwrite % 512] := c;
      nwrite := (nwrite + 1) % 0x1_0000_0000;
      ghost var w := |written|;
      written := written + [c];
      forall k | |taken| <= k < |written| ensures data[k % 512] == written[k] {
        if k < w { SlotsDiffer(k, w); }
      }
    }

    /** c = p->data[p->nread++ % PIPESIZE], when not empty. */
    method Get() returns (c: Byte)
      requires Fifo() && |taken| < |written|
      modifies this`nread, this`taken
      ensures Fifo() && c == written[|old(taken)|] && taken == old(taken) + [c]
    {
      Slot(|taken|);
      Next(|taken|);
      c := data[nread % 512];
      nread := (nread + 1) % 0x1_0000_0000;
      taken := taken + [c];
    }

    /** Bytes the pipe can still take. */
    ghost function Room(): int
      reads this
    {
      512 - (|written| - |taken|)
    }

    /** pipewrite gives up: there is more to write than fits, and no reader or no writer left. */
    ghost predicate GivesUp(n: int, killed: bool)
      reads this
    {
      n > Room() && (killed || !readopen)
    }

    /** pipewrite of src by thread t, from byte i0 on: src[i0..i] went in, as many bytes as fit.
        It returns -1 exactly if it gives up, and sleeps exactly if the pipe is full and it does
        not.  Giving up is the one way to leave a reader asleep over data: it wakes nobody. */
    method Write(t: nat, src: seq<Byte>, i0: nat, killed: bool) returns (i: nat, o: Outcome)
      requires Fifo() && i0 <= |src|
      modifies this`nwrite, this`written, this`readers, this`writers, data
      ensures Fifo() && i0 <= i <= |src| && written == old(written) + src[i0..i]
      ensures i - i0 == if |src| - i0 <= old(Room()) then |src| - i0 else old(Room())
      ensures o == Returned(-1) <==> old(GivesUp(|src| - i0, killed))
      ensures o == Asleep <==> |src| - i0 > old(Room()) && !killed && readopen
      ensures o == Returned(|src|) <==> |src| - i0 <= old(Room())
      ensures readers == if o == Returned(-1) then old(readers) else {}
      ensures writers == if o == Asleep then old(writers) + {t} else old(writers)
      ensures old(SleepersOk()) ==> (SleepersOk() <==> !(old(GivesUp(|src| - i0, killed)) && old(readers) != {}))
    {
      i := i0;
      while i < |src|
        invariant Fifo() && i0 <= i <= |src| && written == old(written) + src[i0..i]
        invariant readers == old(readers) && writers == old(writers)
      {
        Compare(|taken|, |written|);
        if nwrite == (nread + 512) % 0x1_0000_0000 {
          if !readopen || killed {
            return i, Returned(-1);
          }
          readers := {};
          writers := writers + {t};
          return i, Asleep;
        }
        Put(src[i]);
        i := i + 1;
      }
      readers := {};
      o := Returned(|src|);
    }

    /** piperead of up to n bytes by thread t: it sleeps exactly on an empty pipe that may still
        be written, and returns the next bytes in order otherwise. */
    method Read(t: nat, n: nat, killed: bool) returns (o: Outcome, dst: seq<Byte>)
      requires Fifo()
      modifies this`nread, this`taken, this`readers, this`writers
      ensures Fifo() && taken == old(taken) + dst
      ensures o == Asleep <==> |written| == old(|taken|) && writeopen && !killed
      ensures o == Returned(-1) <==> |written| == old(|taken|) && writeopen && killed
      ensures |dst| == if n < |written| - old(|taken|) then n else |written| - old(|taken|)
      ensures |written| > old(|taken|) || !writeopen ==> o == Returned(|dst|)
      ensures readers == if o == Asleep then old(readers) + {t} else old(readers)
      ensures writers == if |written| > old(|taken|) || !writeopen then {} else old(writers)
      ensures old(SleepersOk()) ==> SleepersOk()
    {
      dst := [];
      Compare(|taken|, |written|);
      if nread == nwrite && writeopen {
        if killed {
          return Returned(-1), dst;
        }
        readers := readers + {t};
        return Asleep, dst;
      }
      var i := 0;
      while i < n
        invariant Fifo() && 0 <= i <= n && |dst| == i && taken == old(taken) + dst
        invariant readers == old(readers) && writers == old(writers)
      {
        Compare(|taken|, |written|);
        if nread == nwrite {
          break;
        }
        assert |taken| < |written|;
        var c := Get();
        dst := dst + [c];
        i := i + 1;
      }
      writers := {};
      o := Returned(i);
    }

    /** pipeclose of one end; freed when both are closed. */
    method Close(writable: bool) returns (freed: bool)
      requires Fifo()
      modifies this`readopen, this`writeopen, this`readers, this`writers
      ensures Fifo() && (old(SleepersOk()) ==> SleepersOk())
      ensures if writable then !writeopen && readopen == old(readopen) && readers == {} && writers == old(writers)
              else !readopen && writeopen == old(writeopen) && writers == {} && readers == old(readers)
      ensures freed <==> !readopen && !writeopen
      ensures freed && old(SleepersOk()) ==> readers == {} && writers == {}
    {
      if writable {
        writeopen := false;
        readers := {};
      } else {
        readopen := false;
        writers := {};
      }
      freed := !readopen && !writeopen;
    }
  }

  /** The failing run: a reader sleeps on a new pipe; a writer that is killed, or whose read end
      is closed, puts 512 of its bytes in and leaves.  Data is there and the reader sleeps on. */
  method StrandedReader(src: seq<Byte>, killed: bool) returns (p: Pipe)
    requires |src| > 512
    ensures fresh(p) && p.Fifo() && p.readers == {0} && p.written == src[..512] && p.taken == [] && !p.SleepersOk()
  {
    p := new Pipe();
    var o, _ := p.Read(0, 1, false);
    if !killed {
      var _ := p.Close(false);
    }
    var i, w := p.Write(1, src, 0, killed);
    assert w == Returned(-1) && i == 512;
  }
}
