/** The two arrays that the interpreter of lpvm.c works on: the backtrack stack and the list of captures. */
module LpegStack {
  import opened LpegVm

  const INITBACK := 400

  const INITCAPSIZE := 32

  /** How many frames there is room for when the stack may grow to `max`: it never has less than at first. */
  function Limit(max: nat): (limit: nat)
    ensures limit >= INITBACK && limit >= max && (limit == INITBACK || limit == max)
  {
    if max < INITBACK then INITBACK else max
  }

  class BackStack {
    var frames: array<Frame>
    var top: nat
    const max: nat

    ghost predicate Valid()
      reads this
    {
      top <= frames.Length && INITBACK <= frames.Length <= Limit(max)
    }

    ghost function View(): (stack: seq<Frame>)
      requires Valid()
      reads this, frames
      ensures |stack| == top
    {
      frames[..top]
    }

    constructor (max: nat)
      ensures Valid() && fresh(frames) && View() == [] && this.max == max
    {
      this.max := max;
      frames := new Frame[INITBACK];
      top := 0;
    }

    /** Doubles the size, up to the maximum; fails at the maximum. */
    method DoubleStack() returns (ok: bool)
      requires Valid()
      modifies this`frames
      ensures Valid() && View() == old(View()) && (frames == old(frames) || fresh(frames))
      ensures ok <==> old(frames.Length) < Limit(max)
      ensures ok ==> old(frames.Length) < frames.Length
    {
      var n := frames.Length;
      if n >= max { return false; }
      var newn := if 2 * n > max then max else 2 * n;
      var newstack := new Frame[newn];
      forall i | 0 <= i < n { newstack[i] := frames[i]; }
      frames := newstack;
      return true;
    }

    /** One frame more, unless the stack is at its limit. */
    method Push(f: Frame) returns (ok: bool)
      requires Valid()
      modifies this, frames
      ensures Valid() && (frames == old(frames) || fresh(frames))
      ensures ok <==> |old(View())| < Limit(max)
      ensures View() == if ok then old(View()) + [f] else old(View())
    {
      if top == frames.Length {
        ok := DoubleStack();
        if !ok { return false; }
      }
      frames[top] := f;
      top := top + 1;
      return true;
    }

    method Drop() returns (f: Frame)
      requires Valid() && View() != []
      modifies this`top
      ensures Valid() && View() == old(View())[..|old(View())| - 1] && f == old(View())[|old(View())| - 1]
    {
      top := top - 1;
      f := frames[top];
    }

    /** Brings the choice on top up to date. */
    method Renew(s: nat, lvl: nat)
      requires Valid() && View() != []
      modifies frames
      ensures Valid()
      ensures View() == old(View())[..|old(View())| - 1] + [Choice(s, old(View())[|old(View())| - 1].pc, lvl)]
    {
      frames[top - 1] := Choice(s, frames[top - 1].pc, lvl);
    }
  }

  /** There is always room for one entry more. */
  class CaptureList {
    var entries: array<CapEntry>
    var captop: nat

    ghost predicate Valid()
      reads this
    {
      captop < entries.Length
    }

    ghost function View(): (caps: seq<CapEntry>)
      requires Valid()
      reads this, entries
      ensures |caps| == captop
    {
      entries[..captop]
    }

    constructor ()
      ensures Valid() && fresh(entries) && View() == []
    {
      entries := new CapEntry[INITCAPSIZE];
      captop := 0;
    }

    method Push(e: CapEntry)
      requires Valid()
      modifies this, entries
      ensures Valid() && (entries == old(entries) || fresh(entries)) && View() == old(View()) + [e]
    {
      entries[captop] := e;
      captop := captop + 1;
      if captop >= entries.Length {
        var newc := new CapEntry[captop * 2];
        forall i | 0 <= i < captop { newc[i] := entries[i]; }
        entries := newc;
      }
    }

    /** Closes the innermost capture, as a full entry if possible. */
    method Close(s: nat, idx: int, kind: nat)
      requires Valid() && CanClose(View(), s)
      modifies this, entries
      ensures Valid() && (entries == old(entries) || fresh(entries))
      ensures View() == CloseCapture(old(View()), s, idx, kind)
    {
      var last := captop - 1;
      if entries[last].siz == 0 && s - entries[last].pos < UCHAR_MAX {
        entries[last] := entries[last].(siz := s - entries[last].pos + 1);
      } else {
        Push(CapEntry(s, idx, kind, 1));
      }
    }

    method Cut(lvl: nat)
      requires Valid() && lvl <= |View()|
      modifies this`captop
      ensures Valid() && View() == old(View())[..lvl]
    {
      captop := lvl;
    }
  }
}
