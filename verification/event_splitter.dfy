/** `parse_events`: groups the physical lines of a trace into events. A line beginning with `t`
    or `r` opens a new event, except the very first line, which always opens one; every other
    line continues the current event. Each line loses its last character (the newline). */
module EventSplitter {
  import opened Text

  predicate OpensEvent(line: string) {
    |line| > 0 && (line[0] == 't' || line[0] == 'r')
  }

  /** The events of the first |lines| lines: the completed ones followed by the one being built.
      With no lines at all the event being built is the empty string. */
  function Events(lines: seq<string>): (events: seq<string>)
    ensures |events| >= 1
  {
    if |lines| == 0 then [""]
    else
      var prev := Events(lines[..|lines| - 1]);
      var line := lines[|lines| - 1];
      if OpensEvent(line) && |lines| - 1 != 0 then prev + [DropLast(line)]
      else prev[..|prev| - 1] + [prev[|prev| - 1] + DropLast(line)]
  }

  /** Lines after the first that open an event. */
  function LaterOpeners(lines: seq<string>): nat {
    if |lines| <= 1 then 0
    else LaterOpeners(lines[..|lines| - 1]) + (if OpensEvent(lines[|lines| - 1]) then 1 else 0)
  }

  /** Every line that opens an event, the first one included. */
  function Openers(lines: seq<string>): nat {
    if |lines| == 0 then 0
    else Openers(lines[..|lines| - 1]) + (if OpensEvent(lines[|lines| - 1]) then 1 else 0)
  }

  /** Every line with its last character dropped, in order. */
  function Stripped(lines: seq<string>): (r: seq<string>)
    ensures |r| == |lines| && forall i :: 0 <= i < |lines| ==> r[i] == DropLast(lines[i])
  {
    if |lines| == 0 then [] else Stripped(lines[..|lines| - 1]) + [DropLast(lines[|lines| - 1])]
  }

  /** One event for the first line plus one per later opening line. */
  lemma {:induction false} EventCount(lines: seq<string>)
    ensures |Events(lines)| == 1 + LaterOpeners(lines)
  {
    if |lines| > 0 {
      EventCount(lines[..|lines| - 1]);
    }
  }

  /** When the trace starts with an opening line, there is exactly one event per opening line. */
  lemma {:induction false} EventCountWhenFirstLineOpens(lines: seq<string>)
    requires |lines| > 0 && OpensEvent(lines[0])
    ensures |Events(lines)| == Openers(lines)
  {
    EventCount(lines);
    OpenersSplit(lines);
  }

  lemma {:induction false} OpenersSplit(lines: seq<string>)
    requires |lines| > 0
    ensures Openers(lines) == LaterOpeners(lines) + (if OpensEvent(lines[0]) then 1 else 0)
  {
    if |lines| > 1 {
      OpenersSplit(lines[..|lines| - 1]);
    }
  }

  lemma ConcatAppend(xs: seq<string>, x: string)
    ensures Concat(xs + [x]) == Concat(xs) + x
  {
    assert (xs + [x])[..|xs|] == xs;
  }

  /** Splitting loses nothing and reorders nothing: gluing the events back together gives the
      stripped lines glued together. */
  lemma {:induction false} EventsPreserveText(lines: seq<string>)
    ensures Concat(Events(lines)) == Concat(Stripped(lines))
  {
    if |lines| > 0 {
      var init := lines[..|lines| - 1];
      var tail := DropLast(lines[|lines| - 1]);
      var prev := Events(init);
      EventsPreserveText(init);
      assert Stripped(lines) == Stripped(init) + [tail];
      ConcatAppend(Stripped(init), tail);
      assert Concat(Stripped(lines)) == Concat(prev) + tail;
      var front := prev[..|prev| - 1];
      var last := prev[|prev| - 1];
      assert prev == front + [last];
      ConcatAppend(front, last);
      if OpensEvent(lines[|lines| - 1]) && |lines| - 1 != 0 {
        assert Events(lines) == prev + [tail];
        ConcatAppend(prev, tail);
      } else {
        assert Events(lines) == front + [last + tail];
        ConcatAppend(front, last + tail);
      }
    }
  }

  lemma EventsFacts(lines: seq<string>)
    ensures |Events(lines)| == 1 + LaterOpeners(lines)
    ensures Concat(Events(lines)) == Concat(Stripped(lines))
  {
    EventCount(lines);
    EventsPreserveText(lines);
  }

  /** One more line, in terms of the completed events and the one being built. */
  lemma EventsStep(lines: seq<string>, i: nat, events: seq<string>, event: string)
    requires i < |lines| && events + [event] == Events(lines[..i])
    ensures Events(lines[..i + 1]) ==
      if OpensEvent(lines[i]) && i != 0 then events + [event] + [DropLast(lines[i])]
      else events + [event + DropLast(lines[i])]
  {
    assert lines[..i + 1][..i] == lines[..i];
    assert lines[..i + 1][i] == lines[i];
    var prev := events + [event];
    assert prev[..|prev| - 1] == events && prev[|prev| - 1] == event;
  }

  /** The file-reading loop of `parse_events`, over the file's lines (each ends in its newline,
      or is the last line; iterating over a file never yields an empty line). */
  method ParseEvents(lines: seq<string>) returns (events: seq<string>)
    requires forall i :: 0 <= i < |lines| ==> |lines[i]| > 0
    ensures events == Events(lines)
    ensures |events| == 1 + LaterOpeners(lines)
    ensures Concat(events) == Concat(Stripped(lines))
  {
    events := [];
    var event := "";
    var i := 0;
    while i < |lines|
      invariant 0 <= i <= |lines|
      invariant events + [event] == Events(lines[..i])
    {
      var line := lines[i];
      EventsStep(lines, i, events, event);
      if OpensEvent(line) && i != 0 {
        events := events + [event];
        event := DropLast(line);
      } else {
        event := event + DropLast(line);
      }
      i := i + 1;
    }
    events := events + [event];
    assert lines[..|lines|] == lines;
    EventsFacts(lines);
  }
}
