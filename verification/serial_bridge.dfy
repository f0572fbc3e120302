/** The pass-through session: bytes from the serial line go to the terminal, the
    terminal's outgoing bytes (keyboard input and responses) go to the serial line,
    and XON/XOFF from the host pause and resume the outgoing direction. */
module SerialBridge {
  import opened ConfigStore

  const XON: uint8 := 17
  const XOFF: uint8 := 19

  /** getchar_timeout_us(0) reports "nothing arrived" with this value. */
  const PicoErrorTimeout: int := -1
  /** The terminal's getc reports "nothing to send" with this value. */
  const NoChar: int := -1

  /** What one poll of the serial receiver yields. */
  datatype Rx = Timeout | Received(byte: uint8)

  /** What happens between two checks of the loop condition: either the USB layer
      raises the hot-key flag, or the loop polls the receiver after the keyboard has
      queued `typed` in the terminal's outgoing buffer. */
  datatype Event = Poll(rx: Rx, typed: seq<uint8>) | HotKey

  /** The bridge's state: whether the host has paused us, what the terminal was
      given, what it still has to send, what went out on the wire, and how many
      times the background state machines were run. */
  datatype Bridge = Bridge(xoff: bool, toTerminal: seq<uint8>, pending: seq<uint8>, wire: seq<uint8>, ticks: nat)

  predicate IsControl(c: uint8) {
    c == XON || c == XOFF
  }

  /** One pass of the loop body. */
  function Iteration(b: Bridge, rx: Rx, typed: seq<uint8>): (r: Bridge)
    ensures rx.Received? && IsControl(rx.byte) ==> r.xoff == (rx.byte == XOFF) && r.toTerminal == b.toTerminal
    ensures rx.Received? && !IsControl(rx.byte) ==> r.xoff == b.xoff && r.toTerminal == b.toTerminal + [rx.byte]
    ensures rx.Timeout? ==> r.xoff == b.xoff && r.toTerminal == b.toTerminal
    ensures r.xoff ==> r.wire == b.wire
    ensures r.wire + r.pending == b.wire + b.pending + typed
    ensures |r.wire| + r.ticks == |b.wire| + b.ticks + 1
  {
    var queued := b.pending + typed;
    var xoff := if rx.Received? && IsControl(rx.byte) then rx.byte == XOFF else b.xoff;
    var shown := if rx.Received? && !IsControl(rx.byte) then b.toTerminal + [rx.byte] else b.toTerminal;
    if !xoff && queued != [] then
      Bridge(xoff, shown, queued[1..], b.wire + [queued[0]], b.ticks)
    else
      Bridge(xoff, shown, queued, b.wire, b.ticks + 1)
  }

  /** A pass writes a byte exactly when, after the received byte is handled, the
      bridge is not paused and the terminal has something queued; the byte is the
      oldest one queued. */
  lemma WritesExactlyWhenReady(b: Bridge, rx: Rx, typed: seq<uint8>)
    ensures var r := Iteration(b, rx, typed);
      && (|r.wire| == |b.wire| + 1 <==> !r.xoff && b.pending + typed != [])
      && (|r.wire| == |b.wire| + 1 ==> r.wire[|b.wire|] == (b.pending + typed)[0])
  {
  }

  /** The loop run over a sequence of events; it stops at the first hot key. */
  function Run(b: Bridge, events: seq<Event>): Bridge
    decreases |events|
  {
    if events == [] || events[0].HotKey? then b
    else Run(Iteration(b, events[0].rx, events[0].typed), events[1..])
  }

  /** The session as entered with the hot-key flag `hot`: a raised flag ends it before the first poll. */
  function Session(hot: bool, b: Bridge, events: seq<Event>): Bridge {
    if hot then b else Run(b, events)
  }

  /** The received bytes that are not flow control, in arrival order, up to the first hot key. */
  function DataBytes(events: seq<Event>): (data: seq<uint8>)
    ensures XON !in data && XOFF !in data
    ensures |data| <= |events|
    decreases |events|
  {
    if events == [] || events[0].HotKey? then []
    else if events[0].rx.Received? && !IsControl(events[0].rx.byte) then [events[0].rx.byte] + DataBytes(events[1..])
    else DataBytes(events[1..])
  }

  /** The flow-control bytes received, in arrival order, up to the first hot key. */
  function ControlBytes(events: seq<Event>): (ctl: seq<uint8>)
    ensures forall i :: 0 <= i < |ctl| ==> IsControl(ctl[i])
    decreases |events|
  {
    if events == [] || events[0].HotKey? then []
    else if events[0].rx.Received? && IsControl(events[0].rx.byte) then [events[0].rx.byte] + ControlBytes(events[1..])
    else ControlBytes(events[1..])
  }

  /** Everything the keyboard queued, up to the first hot key. */
  function Typed(events: seq<Event>): seq<uint8>
    decreases |events|
  {
    if events == [] || events[0].HotKey? then [] else events[0].typed + Typed(events[1..])
  }

  /** The number of polls before the first hot key. */
  function PollCount(events: seq<Event>): (n: nat)
    ensures n <= |events|
    decreases |events|
  {
    if events == [] || events[0].HotKey? then 0 else 1 + PollCount(events[1..])
  }

  /** The terminal is given exactly the data bytes, once each and in order; XON and XOFF never reach it. */
  lemma {:induction false} ForwardsDataInOrder(b: Bridge, events: seq<Event>)
    ensures Run(b, events).toTerminal == b.toTerminal + DataBytes(events)
    decreases |events|
  {
    if events != [] && !events[0].HotKey? {
      var b' := Iteration(b, events[0].rx, events[0].typed);
      ForwardsDataInOrder(b', events[1..]);
      if events[0].rx.Received? && !IsControl(events[0].rx.byte) {
        assert b'.toTerminal + DataBytes(events[1..]) == b.toTerminal + ([events[0].rx.byte] + DataBytes(events[1..]));
      }
    }
  }

  /** Nothing the terminal queues is lost, duplicated or reordered: what went out
      followed by what is still queued is what was queued, in order. */
  lemma {:induction false} OutgoingConserved(b: Bridge, events: seq<Event>)
    ensures Run(b, events).wire + Run(b, events).pending == b.wire + b.pending + Typed(events)
    decreases |events|
  {
    if events != [] && !events[0].HotKey? {
      var b' := Iteration(b, events[0].rx, events[0].typed);
      OutgoingConserved(b', events[1..]);
      // the pass moves the typed bytes behind what was already outgoing
      var before, typed, later := b.wire + b.pending, events[0].typed, Typed(events[1..]);
      assert before + (typed + later) == (before + typed) + later;
    }
  }

  /** Every pass either writes one byte to the wire or runs the background state machines. */
  lemma {:induction false} WritesOrTicks(b: Bridge, events: seq<Event>)
    ensures |Run(b, events).wire| + Run(b, events).ticks == |b.wire| + b.ticks + PollCount(events)
    decreases |events|
  {
    if events != [] && !events[0].HotKey? {
      WritesOrTicks(Iteration(b, events[0].rx, events[0].typed), events[1..]);
    }
  }

  /** After the loop, the bridge is paused exactly when the last flow-control byte was
      XOFF; with none received the state is as it was. */
  lemma {:induction false} PauseFollowsLastControl(b: Bridge, events: seq<Event>)
    ensures var ctl := ControlBytes(events);
      Run(b, events).xoff == if ctl == [] then b.xoff else ctl[|ctl| - 1] == XOFF
    decreases |events|
  {
    if events != [] && !events[0].HotKey? {
      var b' := Iteration(b, events[0].rx, events[0].typed);
      PauseFollowsLastControl(b', events[1..]);
    }
  }

  /** While paused and no XON arrives, nothing is written and every pass runs the
      background state machines. */
  lemma {:induction false} PausedWritesNothing(b: Bridge, events: seq<Event>)
    requires b.xoff
    requires forall i :: 0 <= i < |events| && events[i].Poll? ==> events[i].rx != Received(XON)
    ensures Run(b, events).wire == b.wire && Run(b, events).xoff
    ensures Run(b, events).ticks == b.ticks + PollCount(events)
    decreases |events|
  {
    if events != [] && !events[0].HotKey? {
      var b' := Iteration(b, events[0].rx, events[0].typed);
      assert b'.xoff && b'.wire == b.wire;
      PausedWritesNothing(b', events[1..]);
    }
  }

  /** From an XOFF on, nothing goes out until an XON arrives. */
  lemma XoffStopsOutput(b: Bridge, typed: seq<uint8>, events: seq<Event>)
    requires forall i :: 0 <= i < |events| && events[i].Poll? ==> events[i].rx != Received(XON)
    ensures Run(b, [Poll(Received(XOFF), typed)] + events).wire == b.wire
  {
    var all := [Poll(Received(XOFF), typed)] + events;
    assert all[1..] == events;
    PausedWritesNothing(Iteration(b, Received(XOFF), typed), events);
  }

  /** When not paused, idle polls send the queued bytes one per pass, oldest first. */
  lemma {:induction false} ResumeDrains(b: Bridge, events: seq<Event>)
    requires !b.xoff
    requires forall i :: 0 <= i < |events| ==> events[i] == Poll(Timeout, [])
    requires |events| <= |b.pending|
    ensures Run(b, events).wire == b.wire + b.pending[..|events|]
    ensures Run(b, events).pending == b.pending[|events|..]
    decreases |events|
  {
    if events != [] {
      var b' := Iteration(b, Timeout, []);
      assert b.pending + [] == b.pending;
      assert b'.wire == b.wire + [b.pending[0]] && b'.pending == b.pending[1..];
      ResumeDrains(b', events[1..]);
      assert b.pending[1..][..|events| - 1] == b.pending[1..|events|];
      assert [b.pending[0]] + b.pending[1..|events|] == b.pending[..|events|];
    }
  }

  /** A hot key ends the loop: nothing after it is looked at. */
  lemma {:induction false} HotKeyEndsRun(b: Bridge, events: seq<Event>, rest: seq<Event>)
    requires forall i :: 0 <= i < |events| ==> events[i].Poll?
    ensures Run(b, events + [HotKey] + rest) == Run(b, events)
    decreases |events|
  {
    if events == [] {
      assert (events + [HotKey] + rest)[0] == HotKey;
    } else {
      assert (events + [HotKey] + rest)[1..] == events[1..] + [HotKey] + rest;
      HotKeyEndsRun(Iteration(b, events[0].rx, events[0].typed), events[1..], rest);
    }
  }

  /** The terminal as the bridge sees it: the defaults it is configured with, the bytes
      it was given to display, and the bytes it has queued to send. */
  class Terminal {
    var defaultUtf8Mode: bool
    var defaultApplicationMode: bool
    var defaultLocalEcho: bool
    var defaultNewlineMode: bool
    var defaultSgrCumulative: bool
    var defaultC1Codes8bit: bool
    var defaultAutoWrap: bool
    var logUnhandled: bool
    /** Every byte passed to putc. */
    var received: seq<uint8>
    /** The bytes getc will hand out, oldest first. */
    var outgoing: seq<uint8>

    constructor (outgoing0: seq<uint8>)
      ensures received == [] && outgoing == outgoing0
    {
      received := [];
      outgoing := outgoing0;
    }

    /** Takes the terminal defaults from the live settings. */
    method Configure(s: Settings)
      modifies this`defaultUtf8Mode, this`defaultApplicationMode, this`defaultLocalEcho, this`defaultNewlineMode
      modifies this`defaultSgrCumulative, this`defaultC1Codes8bit, this`defaultAutoWrap, this`logUnhandled
      ensures Configured(s)
    {
      defaultUtf8Mode := s.utf8Mode;
      defaultApplicationMode := s.applicationMode;
      defaultLocalEcho := s.localEcho;
      defaultNewlineMode := s.newlineMode;
      defaultSgrCumulative := s.sgrCumulative;
      defaultC1Codes8bit := s.c1Codes8bit;
      defaultAutoWrap := s.autoWrap;
      logUnhandled := s.logUnhandled;
    }

    /** The terminal's defaults are those of `s`. */
    predicate Configured(s: Settings)
      reads this
    {
      && defaultUtf8Mode == s.utf8Mode && defaultApplicationMode == s.applicationMode
      && defaultLocalEcho == s.localEcho && defaultNewlineMode == s.newlineMode
      && defaultSgrCumulative == s.sgrCumulative && defaultC1Codes8bit == s.c1Codes8bit
      && defaultAutoWrap == s.autoWrap && logUnhandled == s.logUnhandled
    }

    /** A byte from the host for the terminal to interpret. */
    method Putc(c: uint8)
      modifies this`received
      ensures received == old(received) + [c]
    {
      received := received + [c];
    }

    /** The keyboard queues bytes to send. */
    method Type(bytes: seq<uint8>)
      modifies this`outgoing
      ensures outgoing == old(outgoing) + bytes
    {
      outgoing := outgoing + bytes;
    }

    /** The next byte to send, or NoChar when the queue is empty. */
    method Getc() returns (c: int)
      modifies this`outgoing
      ensures old(outgoing) == [] ==> c == NoChar && outgoing == []
      ensures old(outgoing) != [] ==> c == old(outgoing)[0] && outgoing == old(outgoing)[1..]
    {
      if outgoing == [] {
        c := NoChar;
      } else {
        c := outgoing[0];
        outgoing := outgoing[1..];
      }
    }
  }

  /** One pass of run_ansiterm's loop body on the terminal, after the keyboard queued `typed`. */
  method Pass(term: Terminal, xoff: bool, wire: seq<uint8>, ticks: nat, rx: Rx, typed: seq<uint8>)
    returns (xoff': bool, wire': seq<uint8>, ticks': nat)
    modifies term`received, term`outgoing
    ensures Bridge(xoff', term.received, term.outgoing, wire', ticks')
         == Iteration(Bridge(xoff, old(term.received), old(term.outgoing), wire, ticks), rx, typed)
  {
    term.Type(typed);
    xoff', wire', ticks' := xoff, wire, ticks;
    var c: int := if rx.Received? then rx.byte else PicoErrorTimeout;
    if c == XON as int || c == XOFF as int {
      xoff' := c == XOFF as int;
    } else if c != PicoErrorTimeout {
      term.Putc(c as uint8);
    }
    var out := NoChar;
    if !xoff' {
      out := term.Getc();
    }
    if !xoff' && out != NoChar {
      wire' := wire' + [out as uint8];
    } else {
      ticks' := ticks' + 1;
    }
  }

  /** run_ansiterm: configures the terminal's defaults from the live settings, then
      shuttles bytes until the hot-key flag is raised (or the events run out).
      Returns what went out on the wire and how often the background state machines ran. */
  method RunAnsiterm(dev: Device, term: Terminal, events: seq<Event>) returns (wire: seq<uint8>, ticks: nat)
    modifies dev`ctrlAltDel, term
    ensures term.Configured(dev.settings)
    ensures var r := Session(old(dev.ctrlAltDel), Bridge(false, old(term.received), old(term.outgoing), [], 0), events);
      && term.received == r.toTerminal && term.outgoing == r.pending && wire == r.wire && ticks == r.ticks
    ensures dev.ctrlAltDel == (old(dev.ctrlAltDel) || HotKey in events)
  {
    term.Configure(dev.settings);
    wire, ticks := Shuttle(dev, term, events);
  }

  /** The loop of run_ansiterm: poll the receiver, pass data bytes to the terminal and
      obey XON/XOFF, then send one queued byte unless paused, or else run the
      background state machines. */
  method Shuttle(dev: Device, term: Terminal, events: seq<Event>) returns (wire: seq<uint8>, ticks: nat)
    modifies dev`ctrlAltDel, term`received, term`outgoing
    ensures var r := Session(old(dev.ctrlAltDel), Bridge(false, old(term.received), old(term.outgoing), [], 0), events);
      && term.received == r.toTerminal && term.outgoing == r.pending && wire == r.wire && ticks == r.ticks
    ensures dev.ctrlAltDel == (old(dev.ctrlAltDel) || HotKey in events)
  {
    var xoff := false;
    wire := [];
    ticks := 0;
    ghost var start := Bridge(false, term.received, term.outgoing, [], 0);
    ghost var hot0 := dev.ctrlAltDel;
    var i := 0;
    while !dev.ctrlAltDel && i < |events|
      invariant 0 <= i <= |events|
      invariant Session(dev.ctrlAltDel, Bridge(xoff, term.received, term.outgoing, wire, ticks), events[i..])
             == Session(hot0, start, events)
      invariant dev.ctrlAltDel == (hot0 || HotKey in events[..i])
    {
      ghost var before := Bridge(xoff, term.received, term.outgoing, wire, ticks);
      var e := events[i];
      assert events[i..][1..] == events[i + 1..];
      assert events[..i + 1] == events[..i] + [e];
      i := i + 1;
      if e.HotKey? {
        dev.ctrlAltDel := true;
      } else {
        xoff, wire, ticks := Pass(term, xoff, wire, ticks, e.rx, e.typed);
      }
    }
    assert i < |events| ==> events[..i] + events[i..] == events;
  }
}
