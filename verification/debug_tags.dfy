/** The `<div>` balance checker: it walks the lines of a page, pushing the
    line number of every opening tag on a stack and popping it at every
    closing tag, reports each closing tag that finds the stack empty, and at
    the end reports the lines of the tags left open or that all tags matched.
    The regular expression that finds the tags on a line is abstracted into a
    sequence of tag tokens per line. */
module DebugTags {

  datatype Tag = Open | Close

  /** What the checker reports, in the order it reports it. */
  datatype Message =
    | UnmatchedClose(line: nat)
    | Unclosed(lines: seq<nat>)
    | AllMatched

  /** One tag token and the 1-based number of the line it is on. */
  datatype Event = Event(line: nat, tag: Tag)

  datatype ScanState = ScanState(stack: seq<nat>, messages: seq<Message>)

  // ---------------------------------------------------------------------------
  // Specification

  /** The tokens of one line, numbered `n`, in order. */
  function LineEvents(n: nat, tags: seq<Tag>): (e: seq<Event>)
    ensures |e| == |tags|
    ensures forall i | 0 <= i < |e| :: e[i] == Event(n, tags[i])
  {
    seq(|tags|, i requires 0 <= i < |tags| => Event(n, tags[i]))
  }

  /** The tokens of all lines, line by line. */
  function Events(lines: seq<seq<Tag>>): seq<Event>
  {
    if lines == [] then []
    else Events(lines[..|lines| - 1]) + LineEvents(|lines|, lines[|lines| - 1])
  }

  /** One token: an opening tag pushes its line; a closing tag pops the top
      line, or reports its own line when the stack is empty. */
  function Step(st: ScanState, e: Event): ScanState
  {
    match e.tag
    case Open => st.(stack := st.stack + [e.line])
    case Close =>
      if st.stack == [] then st.(messages := st.messages + [UnmatchedClose(e.line)])
      else st.(stack := st.stack[..|st.stack| - 1])
  }

  /** The state after a sequence of tokens, starting from an empty stack. */
  function Run(events: seq<Event>): ScanState
  {
    if events == [] then ScanState([], [])
    else Step(Run(events[..|events| - 1]), events[|events| - 1])
  }

  /** The closing report: the lines left open, or that everything matched. */
  function Final(stack: seq<nat>): Message
  {
    if stack != [] then Unclosed(stack) else AllMatched
  }

  function Opens(events: seq<Event>): nat
  {
    if events == [] then 0
    else Opens(events[..|events| - 1]) + (if events[|events| - 1].tag == Open then 1 else 0)
  }

  function Closes(events: seq<Event>): nat
  {
    if events == [] then 0
    else Closes(events[..|events| - 1]) + (if events[|events| - 1].tag == Close then 1 else 0)
  }

  // ---------------------------------------------------------------------------
  // The checker

  /** The scan over lines and their tags, then the closing report. */
  method CheckTags(lines: seq<seq<Tag>>) returns (report: seq<Message>)
    ensures report == Run(Events(lines)).messages + [Final(Run(Events(lines)).stack)]
    ensures report[|report| - 1] == AllMatched <==> Run(Events(lines)).stack == []
  {
    var stack: seq<nat> := [];
    var messages: seq<Message> := [];
    for i := 0 to |lines|
      invariant ScanState(stack, messages) == Run(Events(lines[..i]))
    {
      EventsSnoc(lines, i);
      stack, messages := ScanLine(stack, messages, i + 1, lines[i], Events(lines[..i]));
    }
    assert lines[..|lines|] == lines;
    if stack != [] {
      messages := messages + [Unclosed(stack)];
    } else {
      messages := messages + [AllMatched];
    }
    report := messages;
  }

  /** The inner loop over the tags of line `lineNum`, continuing the scan of
      the tokens `done` that came before it. */
  method ScanLine(stack0: seq<nat>, messages0: seq<Message>, lineNum: nat, tags: seq<Tag>,
                  ghost done: seq<Event>)
    returns (stack: seq<nat>, messages: seq<Message>)
    requires ScanState(stack0, messages0) == Run(done)
    ensures ScanState(stack, messages) == Run(done + LineEvents(lineNum, tags))
  {
    stack, messages := stack0, messages0;
    assert done + LineEvents(lineNum, tags[..0]) == done;
    for j := 0 to |tags|
      invariant ScanState(stack, messages) == Run(done + LineEvents(lineNum, tags[..j]))
    {
      LineEventsSnoc(done, lineNum, tags, j);
      RunSnoc(done + LineEvents(lineNum, tags[..j]), Event(lineNum, tags[j]));
      if tags[j] == Open {
        stack := stack + [lineNum];
      } else if stack == [] {
        messages := messages + [UnmatchedClose(lineNum)];
      } else {
        stack := stack[..|stack| - 1];
      }
    }
    assert tags[..|tags|] == tags;
  }

  /** Running one more token is one more step. */
  lemma RunSnoc(s: seq<Event>, x: Event)
    ensures Run(s + [x]) == Step(Run(s), x)
  {
    assert (s + [x])[..|s|] == s;
  }

  /** One more tag on a line is one more token. */
  lemma LineEventsSnoc(done: seq<Event>, n: nat, tags: seq<Tag>, j: nat)
    requires j < |tags|
    ensures done + LineEvents(n, tags[..j + 1]) == done + LineEvents(n, tags[..j]) + [Event(n, tags[j])]
  {
    assert LineEvents(n, tags[..j + 1]) == LineEvents(n, tags[..j]) + [Event(n, tags[j])];
  }

  /** The tokens of one more line follow those of the lines before it. */
  lemma EventsSnoc(lines: seq<seq<Tag>>, i: nat)
    requires i < |lines|
    ensures Events(lines[..i + 1]) == Events(lines[..i]) + LineEvents(i + 1, lines[i])
  {
    assert lines[..i + 1][..i] == lines[..i];
  }

  // ---------------------------------------------------------------------------
  // Properties

  /** Tokens come line by line: numbered from 1 to the number of lines, in
      non-decreasing order. */
  lemma {:induction false} EventsOrdered(lines: seq<seq<Tag>>)
    ensures forall i | 0 <= i < |Events(lines)| :: 1 <= Events(lines)[i].line <= |lines|
    ensures forall i, j | 0 <= i < j < |Events(lines)| :: Events(lines)[i].line <= Events(lines)[j].line
  {
    if lines != [] {
      var init := lines[..|lines| - 1];
      EventsOrdered(init);
      var a, b := Events(init), LineEvents(|lines|, lines[|lines| - 1]);
      var e := a + b;
      assert Events(lines) == e;
      forall i | 0 <= i < |e| ensures 1 <= e[i].line <= |lines| {
        if i >= |a| { assert e[i] == b[i - |a|]; } else { assert e[i] == a[i]; }
      }
      forall i, j | 0 <= i < j < |e| ensures e[i].line <= e[j].line {
        if j >= |a| {
          assert e[j] == b[j - |a|];
          if i >= |a| { assert e[i] == b[i - |a|]; } else { assert e[i] == a[i]; }
        } else {
          assert e[i] == a[i] && e[j] == a[j];
        }
      }
    }
  }

  /** Over tokens in line order, the stack holds line numbers in
      non-decreasing order from bottom to top, each within the range of the
      tokens' lines and none after the last token's line. */
  lemma {:induction false} StackOrdered(events: seq<Event>, lo: nat, hi: nat)
    requires forall i | 0 <= i < |events| :: lo <= events[i].line <= hi
    requires forall i, j | 0 <= i < j < |events| :: events[i].line <= events[j].line
    ensures forall i, j | 0 <= i < j < |Run(events).stack| :: Run(events).stack[i] <= Run(events).stack[j]
    ensures forall k | 0 <= k < |Run(events).stack| :: lo <= Run(events).stack[k] <= hi
    ensures events != [] ==>
      forall k | 0 <= k < |Run(events).stack| :: Run(events).stack[k] <= events[|events| - 1].line
  {
    if events != [] {
      var init := events[..|events| - 1];
      var last := events[|events| - 1];
      StackOrdered(init, lo, hi);
      var s0 := Run(init).stack;
      assert Run(events) == Step(Run(init), last);
      if init != [] {
        assert init[|init| - 1] == events[|events| - 2];
        forall k | 0 <= k < |s0| ensures s0[k] <= last.line {
          assert s0[k] <= init[|init| - 1].line;
        }
      }
      assert lo <= last.line <= hi;
      var s := Run(events).stack;
      if last.tag == Open {
        assert s == s0 + [last.line];
      } else if s0 != [] {
        assert s == s0[..|s0| - 1];
      } else {
        assert s == s0;
      }
    }
  }

  /** Every checked page leaves its stack ordered and within its lines. */
  lemma CheckedStackOrdered(lines: seq<seq<Tag>>)
    ensures forall i, j | 0 <= i < j < |Run(Events(lines)).stack| ::
      Run(Events(lines)).stack[i] <= Run(Events(lines)).stack[j]
    ensures forall k | 0 <= k < |Run(Events(lines)).stack| :: 1 <= Run(Events(lines)).stack[k] <= |lines|
  {
    EventsOrdered(lines);
    StackOrdered(Events(lines), 1, |lines|);
  }

  /** Every closing tag either matches an opening tag or is reported: the
      opening tags minus those left on the stack are exactly the closing
      tags minus those reported, and every report during the scan is an
      unmatched closing tag. */
  lemma {:induction false} Counts(events: seq<Event>)
    ensures |Run(events).stack| <= Opens(events)
    ensures |Run(events).messages| <= Closes(events)
    ensures Opens(events) - |Run(events).stack| == Closes(events) - |Run(events).messages|
    ensures forall m | m in Run(events).messages :: m.UnmatchedClose?
  {
    if events != [] {
      Counts(events[..|events| - 1]);
    }
  }
}
