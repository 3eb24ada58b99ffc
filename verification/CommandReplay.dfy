/**
Replaying a flat buffer of GUI commands, collected from a script, as nested windows.

`replay_nested` matches brackets with a depth counter.  Its meaning is given twice, independently:
by what the loops do (`Replay`), and by a recursive-descent parser into a forest of windows
(`ParseItems`) whose top-level windows each show the leaf widgets of their whole subtree
(`Meaning`).  The two agree on every buffer, balanced or not, and the parser inverts printing.
*/
module CommandReplay {
  import opened Common

  datatype Command =
    | BeginWindow(name: string)
    | EndWindow
    | Text(text: string)
    | Button(caption: string)
    | SameLine
    | Separator
    | SliderFloat(caption: string, min: real, max: real, value: real)
    | Checkbox(caption: string, checked: bool)
    | InputText(caption: string, text: string)
    | TreeNodeBegin(caption: string)
    | TreeNodeEnd
    | ColorEdit3(caption: string, color: (real, real, real))

  /** A call on the user interface. */
  datatype Widget =
    | ShowText(text: string)
    | ShowButton(caption: string)
    | StaySameLine
    | ShowSeparator
    | ShowSlider(caption: string, min: real, max: real, value: real)
    | ShowCheckbox(caption: string, checked: bool)
    | ShowColorEdit3(caption: string, color: (real, real, real))

  /** A window and what its closure draws. */
  datatype Window = Window(name: string, widgets: seq<Widget>)

  function WidgetOf(c: Command): Option<Widget> {
    match c
    case Text(text) => Some(ShowText(text))
    case Button(caption) => Some(ShowButton(caption))
    case SameLine => Some(StaySameLine)
    case Separator => Some(ShowSeparator)
    case SliderFloat(caption, min, max, value) => Some(ShowSlider(caption, min, max, value))
    case Checkbox(caption, checked) => Some(ShowCheckbox(caption, checked))
    case ColorEdit3(caption, color) => Some(ShowColorEdit3(caption, color))
    case _ => None
  }

  /** The calls that one command makes, inside a window. */
  function Own(c: Command): seq<Widget> {
    match WidgetOf(c)
    case Some(w) => [w]
    case None => []
  }

  /** The command that a call comes from. */
  function CommandOf(w: Widget): Command {
    match w
    case ShowText(text) => Text(text)
    case ShowButton(caption) => Button(caption)
    case StaySameLine => SameLine
    case ShowSeparator => Separator
    case ShowSlider(caption, min, max, value) => SliderFloat(caption, min, max, value)
    case ShowCheckbox(caption, checked) => Checkbox(caption, checked)
    case ShowColorEdit3(caption, color) => ColorEdit3(caption, color)
  }

  /** Brackets, tree nodes and text inputs show nothing; every other command makes one call, with all its arguments. */
  lemma OwnIsInvertible(c: Command)
    ensures c.BeginWindow? || c.EndWindow? || c.TreeNodeBegin? || c.TreeNodeEnd? || c.InputText? <==> Own(c) == []
    ensures Own(c) != [] ==> |Own(c)| == 1 && CommandOf(Own(c)[0]) == c
  {
  }

  // ---------------------------------------------------------------- what the loops do

  /** `replay_inner` on commands i..j. */
  function Inner(cs: seq<Command>, i: nat, j: nat): seq<Widget>
    requires i <= j <= |cs|
    decreases j - i
  {
    if i == j then [] else Own(cs[i]) + Inner(cs, i + 1, j)
  }

  /** The commands among i..j that show something. */
  function Shown(cs: seq<Command>, i: nat, j: nat): seq<Command>
    requires i <= j <= |cs|
    decreases j - i
  {
    if i == j then []
    else if cs[i].BeginWindow? || cs[i].EndWindow? || cs[i].TreeNodeBegin? || cs[i].TreeNodeEnd? || cs[i].InputText?
    then Shown(cs, i + 1, j)
    else [cs[i]] + Shown(cs, i + 1, j)
  }

  function CommandsOf(ws: seq<Widget>): seq<Command> {
    if ws == [] then [] else [CommandOf(ws[0])] + CommandsOf(ws[1..])
  }

  /** MAIN: the calls made in a window are its showing commands, each once, in order, with all their arguments. */
  lemma {:induction false} InnerShowsTheCommands(cs: seq<Command>, i: nat, j: nat)
    requires i <= j <= |cs|
    ensures CommandsOf(Inner(cs, i, j)) == Shown(cs, i, j)
    decreases j - i
  {
    if i < j {
      OwnIsInvertible(cs[i]);
      InnerShowsTheCommands(cs, i + 1, j);
      var rest := Inner(cs, i + 1, j);
      if Own(cs[i]) == [] {
        assert Own(cs[i]) + rest == rest;
      } else {
        assert (Own(cs[i]) + rest)[0] == Own(cs[i])[0] && (Own(cs[i]) + rest)[1..] == rest;
      }
    }
  }

  /** The index, from `i` on, of the EndWindow that closes `depth` open windows, or the end of the buffer. */
  function Scan(cs: seq<Command>, i: nat, depth: nat): (k: nat)
    requires i <= |cs| && depth > 0
    ensures i <= k <= |cs|
    decreases |cs| - i
  {
    if i == |cs| then i
    else if cs[i].BeginWindow? then Scan(cs, i + 1, depth + 1)
    else if !cs[i].EndWindow? then Scan(cs, i + 1, depth)
    else if depth == 1 then i
    else Scan(cs, i + 1, depth - 1)
  }

  /** `replay_nested` from command `i` on. */
  function Replay(cs: seq<Command>, i: nat): seq<Window>
    requires i <= |cs|
    decreases |cs| - i
  {
    if i == |cs| then []
    else if cs[i].BeginWindow? then
      var end := Scan(cs, i + 1, 1);
      [Window(cs[i].name, Inner(cs, i + 1, end))] + Replay(cs, if end < |cs| then end + 1 else end)
    else Replay(cs, i + 1)
  }

  /** The user interface: windows already built, and the calls of the window being built. */
  class Ui {
    var built: seq<Window>
    var current: seq<Widget>

    constructor ()
      ensures built == [] && current == []
    {
      built, current := [], [];
    }

    method Call(w: Widget)
      modifies this`current
      ensures current == old(current) + [w]
    {
      current := current + [w];
    }
  }

  method ReplayInner(commands: seq<Command>, ui: Ui)
    modifies ui`current
    ensures ui.current == old(ui.current) + Inner(commands, 0, |commands|)
  {
    for i := 0 to |commands|
      invariant ui.current + Inner(commands, i, |commands|) == old(ui.current) + Inner(commands, 0, |commands|)
    {
      ghost var before := ui.current;
      match commands[i] {
        case Text(text) => ui.Call(ShowText(text));
        case Button(caption) => ui.Call(ShowButton(caption));
        case SameLine => ui.Call(StaySameLine);
        case Separator => ui.Call(ShowSeparator);
        case SliderFloat(caption, min, max, value) => ui.Call(ShowSlider(caption, min, max, value));
        case Checkbox(caption, checked) => ui.Call(ShowCheckbox(caption, checked));
        case ColorEdit3(caption, color) => ui.Call(ShowColorEdit3(caption, color));
        case _ =>
      }
      assert ui.current == before + Own(commands[i]);
    }
  }

  lemma {:induction false} InnerOfSlice(cs: seq<Command>, a: nat, i: nat, b: nat)
    requires a <= i <= b <= |cs|
    ensures Inner(cs[a..b], i - a, b - a) == Inner(cs, i, b)
    decreases b - i
  {
    if i < b {
      InnerOfSlice(cs, a, i + 1, b);
    }
  }

  /** The inner loop: the index of the matching EndWindow, or the end of the buffer. */
  method FindMatchingEnd(commands: seq<Command>, start: nat) returns (end: nat)
    requires start <= |commands|
    ensures end == Scan(commands, start, 1)
  {
    var depth := 1;
    end := start;
    while end < |commands|
      invariant start <= end <= |commands| && depth >= 1
      invariant Scan(commands, end, depth) == Scan(commands, start, 1)
      decreases |commands| - end
    {
      match commands[end] {
        case BeginWindow(_) =>
          depth := depth + 1;
        case EndWindow =>
          if depth == 1 {
            break;
          }
          depth := depth - 1;
        case _ =>
      }
      end := end + 1;
    }
  }

  method ReplayNested(commands: seq<Command>, ui: Ui)
    modifies ui
    ensures ui.built == old(ui.built) + Replay(commands, 0)
  {
    var i := 0;
    while i < |commands|
      invariant i <= |commands|
      invariant ui.built + Replay(commands, i) == old(ui.built) + Replay(commands, 0)
    {
      match commands[i] {
        case BeginWindow(name) =>
          var start := i + 1;
          var end := FindMatchingEnd(commands, start);
          var inner := commands[start..end];
          ui.current := [];
          ReplayInner(inner, ui);
          InnerOfSlice(commands, start, start, end);
          assert ui.current == Inner(commands, start, end);
          ui.built := ui.built + [Window(name, ui.current)];
          i := if end < |commands| then end + 1 else end;
        case _ =>
          i := i + 1;
      }
    }
  }

  // ---------------------------------------------------------------- forests

  datatype Forest =
    | Empty
    | Plain(command: Command, next: Forest)
    | Nest(name: string, inside: Forest, next: Forest)

  /** Plain items are not brackets. */
  predicate WellFormed(f: Forest) {
    match f
    case Empty => true
    case Plain(c, next) => !c.BeginWindow? && !c.EndWindow? && WellFormed(next)
    case Nest(_, inside, next) => WellFormed(inside) && WellFormed(next)
  }

  function Print(f: Forest): seq<Command> {
    match f
    case Empty => []
    case Plain(c, next) => [c] + Print(next)
    case Nest(name, inside, next) => [BeginWindow(name)] + (Print(inside) + ([EndWindow] + Print(next)))
  }

  /** The leaf widgets of a whole subtree, in order. */
  function Leaves(f: Forest): seq<Widget> {
    match f
    case Empty => []
    case Plain(c, next) => Own(c) + Leaves(next)
    case Nest(_, inside, next) => Leaves(inside) + Leaves(next)
  }

  /** The windows on the screen: the top-level ones, each with everything below it. */
  function Meaning(f: Forest): seq<Window> {
    match f
    case Empty => []
    case Plain(_, next) => Meaning(next)
    case Nest(name, inside, next) => [Window(name, Leaves(inside))] + Meaning(next)
  }

  /**
  Recursive descent from command `i`, and the index where it stops.  Inside a window, EndWindow ends
  the list and is left for the caller; outside, a stray EndWindow is skipped; a window that is never
  closed extends to the end of the buffer.
  */
  function ParseItems(cs: seq<Command>, i: nat, nested: bool): (r: (Forest, nat))
    requires i <= |cs|
    ensures i <= r.1 <= |cs|
    ensures r.1 < |cs| ==> nested && cs[r.1].EndWindow?
    decreases |cs| - i
  {
    if i == |cs| then (Empty, i)
    else if cs[i].BeginWindow? then
      var (inside, end) := ParseItems(cs, i + 1, true);
      var (next, stop) := ParseItems(cs, if end < |cs| then end + 1 else end, nested);
      (Nest(cs[i].name, inside, next), stop)
    else if cs[i].EndWindow? then
      if nested then (Empty, i) else ParseItems(cs, i + 1, nested)
    else
      var (next, stop) := ParseItems(cs, i + 1, nested);
      (Plain(cs[i], next), stop)
  }

  lemma {:induction false} InnerSplit(cs: seq<Command>, i: nat, m: nat, j: nat)
    requires i <= m <= j <= |cs|
    ensures Inner(cs, i, j) == Inner(cs, i, m) + Inner(cs, m, j)
    decreases m - i
  {
    if i < m {
      InnerSplit(cs, i + 1, m, j);
    }
  }

  /** The depth counter and the parser stop at the same bracket. */
  lemma {:induction false} ScanIsParse(cs: seq<Command>, i: nat, depth: nat)
    requires i <= |cs| && depth > 0
    ensures
      var k := ParseItems(cs, i, true).1;
      Scan(cs, i, depth) == if k == |cs| || depth == 1 then k else Scan(cs, k + 1, depth - 1)
    decreases |cs| - i
  {
    if i < |cs| {
      if cs[i].BeginWindow? {
        ScanIsParse(cs, i + 1, depth + 1);
        var end := ParseItems(cs, i + 1, true).1;
        if end < |cs| {
          ScanIsParse(cs, end + 1, depth);
        }
      } else if !cs[i].EndWindow? {
        ScanIsParse(cs, i + 1, depth);
      }
    }
  }

  /** What the flat pass over a window draws is what its subtree holds. */
  lemma {:induction false} InnerIsLeaves(cs: seq<Command>, i: nat)
    requires i <= |cs|
    ensures
      var (f, k) := ParseItems(cs, i, true);
      Inner(cs, i, k) == Leaves(f)
    decreases |cs| - i
  {
    if i < |cs| {
      var k := ParseItems(cs, i, true).1;
      if cs[i].BeginWindow? {
        InnerIsLeaves(cs, i + 1);
        var end := ParseItems(cs, i + 1, true).1;
        InnerSplit(cs, i + 1, end, k);
        if end < |cs| {
          InnerIsLeaves(cs, end + 1);
        }
      } else if !cs[i].EndWindow? {
        InnerIsLeaves(cs, i + 1);
      }
    }
  }

  /** MAIN: on every buffer, balanced or not, the loops draw the windows of the parsed forest. */
  lemma {:induction false} ReplayIsMeaning(cs: seq<Command>, i: nat)
    requires i <= |cs|
    ensures Replay(cs, i) == Meaning(ParseItems(cs, i, false).0)
    decreases |cs| - i
  {
    if i < |cs| {
      if cs[i].BeginWindow? {
        ScanIsParse(cs, i + 1, 1);
        InnerIsLeaves(cs, i + 1);
        var end := Scan(cs, i + 1, 1);
        ReplayIsMeaning(cs, if end < |cs| then end + 1 else end);
      } else {
        ReplayIsMeaning(cs, i + 1);
      }
    }
  }

  /** Commands i.. of the buffer begin with `part`. */
  ghost predicate At(cs: seq<Command>, i: nat, part: seq<Command>) {
    i + |part| <= |cs| && cs[i..i + |part|] == part
  }

  lemma AtParts(cs: seq<Command>, i: nat, a: seq<Command>, b: seq<Command>)
    requires At(cs, i, a + b)
    ensures At(cs, i, a) && At(cs, i + |a|, b)
  {
    assert cs[i..i + |a|] == (a + b)[..|a|];
    assert cs[i + |a|..i + |a| + |b|] == (a + b)[|a|..];
  }

  lemma AtNest(cs: seq<Command>, i: nat, name: string, inside: seq<Command>, next: seq<Command>)
    requires At(cs, i, [BeginWindow(name)] + (inside + ([EndWindow] + next)))
    ensures
      var end := i + 1 + |inside|;
      && end < |cs| && cs[i] == BeginWindow(name) && cs[end] == EndWindow
      && At(cs, i + 1, inside) && At(cs, end + 1, next)
  {
    AtParts(cs, i, [BeginWindow(name)], inside + ([EndWindow] + next));
    AtParts(cs, i + 1, inside, [EndWindow] + next);
    AtParts(cs, i + 1 + |inside|, [EndWindow], next);
    assert cs[i..i + 1][0] == BeginWindow(name);
    assert cs[i + 1 + |inside|..i + 1 + |inside| + 1][0] == EndWindow;
  }

  lemma AtPlain(cs: seq<Command>, i: nat, c: Command, next: seq<Command>)
    requires At(cs, i, [c] + next)
    ensures i < |cs| && cs[i] == c && At(cs, i + 1, next)
  {
    AtParts(cs, i, [c], next);
    assert cs[i..i + 1][0] == c;
  }

  /** The parser, started at `i`, reads exactly `f` and stops right behind it. */
  ghost predicate ReadsBack(cs: seq<Command>, i: nat, f: Forest, nested: bool)
    requires i <= |cs|
  {
    ParseItems(cs, i, nested) == (f, i + |Print(f)|)
  }

  lemma {:induction false} PlainReadsBack(cs: seq<Command>, i: nat, c: Command, next: Forest, nested: bool)
    requires i < |cs| && cs[i] == c && WellFormed(Plain(c, next)) && ReadsBack(cs, i + 1, next, nested)
    ensures ReadsBack(cs, i, Plain(c, next), nested)
  {
  }

  lemma {:induction false} NestReadsBack(cs: seq<Command>, i: nat, name: string, inside: Forest, next: Forest, nested: bool, k: nat)
    requires i < |cs| && cs[i] == BeginWindow(name) && k == i + 2 + |Print(inside)| <= |cs|
    requires ReadsBack(cs, i + 1, inside, true) && ReadsBack(cs, k, next, nested)
    ensures ReadsBack(cs, i, Nest(name, inside, next), nested)
  {
  }

  /** Nothing more to read for this list: the end of the buffer, or the end of the window around it. */
  predicate ListEnds(cs: seq<Command>, k: nat, nested: bool) { k == |cs| || (k < |cs| && nested && cs[k].EndWindow?) }

  lemma EmptyReadsBack(cs: seq<Command>, i: nat, nested: bool)
    requires ListEnds(cs, i, nested)
    ensures ReadsBack(cs, i, Empty, nested)
  {
  }

  /** What stands where when a printed window is read. */
  lemma {:induction false} NestParts(cs: seq<Command>, i: nat, name: string, inside: Forest, next: Forest, nested: bool,
                                     inner: seq<Command>, rest: seq<Command>)
    requires inner == Print(inside) && rest == Print(next) && At(cs, i, Print(Nest(name, inside, next)))
    requires ListEnds(cs, i + |Print(Nest(name, inside, next))|, nested)
    ensures i < |cs| && cs[i] == BeginWindow(name)
    ensures At(cs, i + 1, inner) && ListEnds(cs, i + 1 + |inner|, true) && i + 1 + |inner| < |cs|
    ensures At(cs, i + 2 + |inner|, rest) && ListEnds(cs, i + 2 + |inner| + |rest|, nested)
  {
    AtNest(cs, i, name, inner, rest);
  }

  lemma {:induction false} PlainParts(cs: seq<Command>, i: nat, c: Command, next: Forest, nested: bool, rest: seq<Command>)
    requires rest == Print(next) && At(cs, i, Print(Plain(c, next))) && ListEnds(cs, i + |Print(Plain(c, next))|, nested)
    ensures i < |cs| && cs[i] == c && At(cs, i + 1, rest) && ListEnds(cs, i + 1 + |rest|, nested)
  {
    AtPlain(cs, i, c, rest);
  }

  lemma {:induction false} PrintedNestReadsBack(cs: seq<Command>, i: nat, name: string, inside: Forest, next: Forest, nested: bool, k: nat)
    requires WellFormed(inside) && WellFormed(next) && At(cs, i, Print(Nest(name, inside, next)))
    requires ListEnds(cs, i + |Print(Nest(name, inside, next))|, nested) && k == i + 2 + |Print(inside)|
    ensures ReadsBack(cs, i, Nest(name, inside, next), nested)
    decreases Nest(name, inside, next), 0
  {
    NestParts(cs, i, name, inside, next, nested, Print(inside), Print(next));
    ParseUndoesPrint(cs, i + 1, inside, true);
    ParseUndoesPrint(cs, k, next, nested);
    NestReadsBack(cs, i, name, inside, next, nested, k);
  }

  lemma {:induction false} PrintedPlainReadsBack(cs: seq<Command>, i: nat, c: Command, next: Forest, nested: bool)
    requires WellFormed(Plain(c, next)) && At(cs, i, Print(Plain(c, next)))
    requires ListEnds(cs, i + |Print(Plain(c, next))|, nested)
    ensures ReadsBack(cs, i, Plain(c, next), nested)
    decreases Plain(c, next), 0
  {
    PlainParts(cs, i, c, next, nested, Print(next));
    ParseUndoesPrint(cs, i + 1, next, nested);
    PlainReadsBack(cs, i, c, next, nested);
  }

  /** MAIN: the parser reads back every printed forest of well-nested windows, and stops where the print stops. */
  lemma {:induction false} ParseUndoesPrint(cs: seq<Command>, i: nat, f: Forest, nested: bool)
    requires WellFormed(f) && At(cs, i, Print(f)) && ListEnds(cs, i + |Print(f)|, nested)
    ensures ReadsBack(cs, i, f, nested)
    decreases f, 1
  {
    match f
    case Empty => EmptyReadsBack(cs, i, nested);
    case Plain(c, next) => PrintedPlainReadsBack(cs, i, c, next, nested);
    case Nest(name, inside, next) => PrintedNestReadsBack(cs, i, name, inside, next, nested, i + 2 + |Print(inside)|);
  }

  /** MAIN: replaying a printed forest shows its top-level windows in order, each with the leaves of its whole subtree. */
  lemma ReplayOfPrint(f: Forest)
    requires WellFormed(f)
    ensures Replay(Print(f), 0) == Meaning(f)
  {
    ParseUndoesPrint(Print(f), 0, f, false);
    ReplayIsMeaning(Print(f), 0);
  }

  lemma {:induction false} ParsedIsWellFormed(cs: seq<Command>, i: nat, nested: bool)
    requires i <= |cs|
    ensures WellFormed(ParseItems(cs, i, nested).0)
    decreases |cs| - i
  {
    if i < |cs| {
      if cs[i].BeginWindow? {
        ParsedIsWellFormed(cs, i + 1, true);
        var end := ParseItems(cs, i + 1, true).1;
        ParsedIsWellFormed(cs, if end < |cs| then end + 1 else end, nested);
      } else if !cs[i].EndWindow? || !nested {
        ParsedIsWellFormed(cs, i + 1, nested);
      }
    }
  }

  /** MAIN: an unbalanced buffer shows exactly what its balanced repair shows. */
  lemma ReplayOfRepair(cs: seq<Command>)
    ensures Replay(cs, 0) == Replay(Print(ParseItems(cs, 0, false).0), 0)
  {
    var f := ParseItems(cs, 0, false).0;
    ParsedIsWellFormed(cs, 0, false);
    ReplayIsMeaning(cs, 0);
    ReplayOfPrint(f);
  }
}
