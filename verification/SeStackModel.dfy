/**
 The parameter stack of a tree, `s_engine/runtime/s_engine_stack.c`, and the calling convention
 built on it by `se_stack_frame_instance`: rotation, call frames, and what a call may touch.
 The class in `SeStack` is proved against these functions.
 */
module SeStackModel {
  import opened Arith
  import opened Options

  const MAX_FRAMES: nat := 16
  const RETURN_MAX: nat := 16

  /** A stack cell: the parameter's type byte and its value. */
  datatype Cell = Cell(tag: nat, word: nat)

  const ZERO_CELL := Cell(0, 0)

  datatype Frame = Frame(base: nat, params: nat, locals: nat, scratch: nat)

  /** The whole data array: cells from `sp` on are stale, not gone. */
  datatype Stack = Stack(data: seq<Cell>, sp: nat, frames: seq<Frame>)

  predicate FrameOk(f: Frame, capacity: nat) {
    f.base + f.params + f.locals == f.scratch <= capacity
  }

  predicate WF(s: Stack) {
    && s.sp <= |s.data| && |s.frames| <= MAX_FRAMES
    && forall k :: 0 <= k < |s.frames| ==> FrameOk(s.frames[k], |s.data|)
  }

  /** The live cells, bottom first. */
  function Live(s: Stack): seq<Cell>
    requires WF(s)
  {
    s.data[..s.sp]
  }

  // ---- rotation --------------------------------------------------------------

  /** C's `%`: the remainder has the sign of the dividend. */
  function CRem(a: int, b: nat): int
    requires b > 0
  {
    if a >= 0 then a % b else -((-a) % b)
  }

  /** The rotation count brought into range as the code does it. */
  function Turns(n: int, len: nat): (k: nat)
    requires len > 0
    ensures k == n % len
  {
    if n < 0 then
      NegRem(-n, len);
      if CRem(n, len) < 0 then CRem(n, len) + len else CRem(n, len)
    else CRem(n, len)
  }

  /** A segment rotated right by `n` places: the last `n mod length` cells come first. */
  function Rotated<T>(seg: seq<T>, n: int): (r: seq<T>)
    requires |seg| > 0
    ensures |r| == |seg|
  {
    var k := n % |seg|;
    seg[|seg| - k..] + seg[..|seg| - k]
  }

  /** Where each cell comes from. */
  lemma RotatedAt<T>(seg: seq<T>, n: int, i: nat)
    requires i < |seg|
    ensures Rotated(seg, n)[i] == seg[(i - n) % |seg|]
  {
    var len := |seg|;
    var k := n % len;
    assert n == (n / len) * len + k;
    if i < k {
      assert i - n == (-(n / len) - 1) * len + (len - k + i);
      ModUnique(i - n, len, -(n / len) - 1, len - k + i);
    } else {
      assert i - n == -(n / len) * len + (i - k);
      ModUnique(i - n, len, -(n / len), i - k);
    }
  }

  /** Rotations add up. */
  lemma RotatePlus<T>(seg: seq<T>, m: int, n: int)
    requires |seg| > 0
    ensures Rotated(Rotated(seg, m), n) == Rotated(seg, m + n)
  {
    hide Rotated;
    var len := |seg|;
    forall i | 0 <= i < len
      ensures Rotated(Rotated(seg, m), n)[i] == Rotated(seg, m + n)[i]
    {
      RotatedAt(Rotated(seg, m), n, i);
      RotatedAt(seg, m, (i - n) % len);
      RotatedAt(seg, m + n, i);
      ModChain(i, m, n, len);
    }
  }

  /** A rotation undone. */
  lemma RotateBack<T>(seg: seq<T>, n: int)
    requires |seg| > 0
    ensures Rotated(Rotated(seg, n), -n) == seg
  {
    RotatePlus(seg, n, -n);
    assert Rotated(seg, 0) == seg;
  }

  /** A rotation permutes. */
  lemma RotatedPermutes<T>(seg: seq<T>, n: int)
    requires |seg| > 0
    ensures multiset(Rotated(seg, n)) == multiset(seg)
  {
    var k := n % |seg|;
    assert seg == seg[..|seg| - k] + seg[|seg| - k..];
  }

  // ---- operations ------------------------------------------------------------

  /** `stack_to_array_idx`: 1 is the bottom, -1 the top. */
  function ArrayIndex(sp: nat, idx: int): (r: Option<nat>)
    ensures r.Some? ==> r.value < sp
    ensures r.Some? <==> 1 <= idx <= sp || (idx < 0 && sp + idx >= 0)
  {
    if sp == 0 then None
    else
      var at := if idx > 0 then idx else if idx < 0 then sp + idx + 1 else 0;
      if at < 1 || at > sp then None else Some(at - 1)
  }

  /** None where the code raises EXCEPTION, which does not return. */
  function Push(s: Stack, c: Cell): (r: Option<Stack>)
    requires WF(s)
    ensures r.Some? ==> WF(r.value)
  {
    if s.sp >= |s.data| then None else Some(s.(data := s.data[s.sp := c], sp := s.sp + 1))
  }

  /** The cells from `at` to the top, rotated. */
  function RotateFrom(s: Stack, at: nat, n: int): (r: Stack)
    requires WF(s) && at < s.sp
    ensures WF(r)
  {
    s.(data := s.data[..at] + Rotated(s.data[at..s.sp], n) + s.data[s.sp..])
  }

  function Rotate(s: Stack, idx: int, n: int): (r: Option<Stack>)
    requires WF(s)
    ensures r.Some? ==> WF(r.value)
  {
    var at := ArrayIndex(s.sp, idx);
    if at.None? then None else Some(RotateFrom(s, at.value, n))
  }

  /** `s_expr_stack_insert`: the top cell moves down to the index. */
  function Insert(s: Stack, idx: int): (r: Option<Stack>)
    requires WF(s)
    ensures r.Some? ==> WF(r.value)
  {
    var at := ArrayIndex(s.sp, idx);
    if at.None? then None
    else Some(s.(data := s.data[..at.value] + [s.data[s.sp - 1]] + s.data[at.value..s.sp - 1] + s.data[s.sp..]))
  }

  /** `s_expr_stack_remove`: the cells above move down one. */
  function Remove(s: Stack, idx: int): (r: Option<Stack>)
    requires WF(s)
    ensures r.Some? ==> WF(r.value)
  {
    var at := ArrayIndex(s.sp, idx);
    if at.None? then None
    else Some(s.(data := s.data[..at.value] + s.data[at.value + 1..s.sp] + s.data[s.sp - 1..], sp := s.sp - 1))
  }

  /** Inserting is rotating by one. */
  lemma InsertIsRotate(s: Stack, idx: int)
    requires WF(s)
    ensures Insert(s, idx) == Rotate(s, idx, 1)
  {
    hide Rotated;
    var at := ArrayIndex(s.sp, idx);
    if at.Some? {
      var seg := s.data[at.value..s.sp];
      RotatedByOne(seg);
      assert seg[..|seg| - 1] == s.data[at.value..s.sp - 1];
      assert s.data[..at.value] + [s.data[s.sp - 1]] + s.data[at.value..s.sp - 1]
          == s.data[..at.value] + Rotated(seg, 1);
    }
  }

  lemma RotatedByOne<T>(seg: seq<T>)
    requires |seg| > 0
    ensures Rotated(seg, 1) == [seg[|seg| - 1]] + seg[..|seg| - 1]
  {
    assert |seg| > 1 ==> 1 % |seg| == 1;
  }

  /** A removed cell pushed and inserted again at its place restores the stack. */
  lemma InsertUndoesRemove(s: Stack, at: nat)
    requires WF(s) && at < s.sp
    ensures var gone := Remove(s, at + 1);
      && gone.Some? && Live(gone.value) == Live(s)[..at] + Live(s)[at + 1..]
      && var back := Push(gone.value, s.data[at]);
      && back.Some? && Insert(back.value, at + 1).Some? && Live(Insert(back.value, at + 1).value) == Live(s)
  {
    var gone := Remove(s, at + 1).value;
    assert Live(gone) == Live(s)[..at] + Live(s)[at + 1..];
    var back := Push(gone, s.data[at]).value;
    assert Live(back) == Live(gone) + [s.data[at]];
    var t := Insert(back, at + 1).value;
    assert Live(t) == Live(back)[..at] + [s.data[at]] + Live(back)[at..s.sp - 1];
  }

  // ---- frames ----------------------------------------------------------------

  predicate CanPushFrame(s: Stack, params: nat, locals: nat) {
    |s.frames| < MAX_FRAMES && s.sp + locals <= |s.data| && params <= s.sp
  }

  function PushFrame(s: Stack, params: nat, locals: nat): (r: Option<Stack>)
    requires WF(s)
    ensures r.Some? ==> WF(r.value)
  {
    if !CanPushFrame(s, params, locals) then None
    else
      Some(Stack(s.data[..s.sp] + seq(locals, _ => ZERO_CELL) + s.data[s.sp + locals..], s.sp + locals,
                 s.frames + [Frame(s.sp - params, params, locals, s.sp + locals)]))
  }

  function PopFrame(s: Stack): (r: Stack)
    requires WF(s)
    ensures WF(r)
  {
    if s.frames == [] then s
    else
      var n := |s.frames| - 1;
      s.(sp := s.frames[n].base, frames := s.frames[..n])
  }

  function GetLocal(s: Stack, i: nat): Option<Cell>
    requires WF(s)
  {
    if s.frames == [] then None
    else
      var f := s.frames[|s.frames| - 1];
      if i >= f.params + f.locals then None else Some(s.data[f.base + i])
  }

  function SetLocal(s: Stack, i: nat, c: Cell): (r: Option<Stack>)
    requires WF(s)
    ensures r.Some? ==> WF(r.value)
  {
    if s.frames == [] then None
    else
      var f := s.frames[|s.frames| - 1];
      if i >= f.params + f.locals then None else Some(s.(data := s.data[f.base + i := c]))
  }

  // ---- returning -------------------------------------------------------------

  /** A token of the return list: an integer constant names a local, anything else is skipped. */
  datatype Token = Token(isInt: bool, word: nat)

  /** The cells named by the list, of those that name a cell at all. */
  function Named(locals: seq<Cell>, list: seq<Token>): (r: seq<Cell>)
    ensures |r| <= |list|
  {
    if list == [] then []
    else
      var last := list[|list| - 1];
      var i := last.word % 0x1_0000;
      Named(locals, list[..|list| - 1]) + (if last.isInt && i < |locals| then [locals[i]] else [])
  }

  predicate Names(locals: seq<Cell>, t: Token) { t.isInt && t.word % 65536 < |locals| }

  /** A list of which every token names a cell gives those cells in its order. */
  lemma {:induction false} NamedInOrder(locals: seq<Cell>, list: seq<Token>)
    requires forall j :: 0 <= j < |list| ==> Names(locals, list[j])
    ensures |Named(locals, list)| == |list|
    ensures forall j :: 0 <= j < |list| ==> Names(locals, list[j]) && Named(locals, list)[j] == locals[list[j].word % 65536]
  {
    if list != [] {
      var n := |list| - 1;
      var before := list[..n];
      NamedInOrder(locals, before);
      assert Names(locals, list[n]);
      assert Named(locals, list) == Named(locals, before) + [locals[list[n].word % 65536]];
      forall j | 0 <= j < |list|
        ensures Names(locals, list[j]) && Named(locals, list)[j] == locals[list[j].word % 65536]
      {
        if j < n { assert before[j] == list[j]; }
      }
    }
  }

  /** A token that names nothing is as if it were not there. */
  lemma {:induction false} NamedSkips(locals: seq<Cell>, a: seq<Token>, t: Token, b: seq<Token>)
    requires !Names(locals, t)
    ensures Named(locals, a + [t] + b) == Named(locals, a + b)
    decreases |b|
  {
    var with, without := a + [t] + b, a + b;
    if b == [] {
      assert with == a + [t] && with[..|with| - 1] == a && without == a;
    } else {
      var n := |b| - 1;
      NamedSkips(locals, a, t, b[..n]);
      assert with[..|with| - 1] == a + [t] + b[..n] && without[..|without| - 1] == a + b[..n];
    }
  }

  function FirstFew(cells: seq<Cell>, n: nat): (r: seq<Cell>)
    ensures |r| <= n && |r| <= |cells| && r == cells[..|r|]
  {
    if |cells| > n then cells[..n] else cells
  }

  /** The params and locals of the current frame. */
  function Locals(s: Stack): seq<Cell>
    requires WF(s)
  {
    if s.frames == [] then [] else
      var f := s.frames[|s.frames| - 1];
      assert FrameOk(f, |s.data|);
      s.data[f.base..f.scratch]
  }

  /** Cells pushed until the stack is full. */
  function PushAll(s: Stack, cells: seq<Cell>): (r: Stack)
    requires WF(s)
    ensures WF(r)
  {
    var fit := FirstFew(cells, |s.data| - s.sp);
    s.(data := s.data[..s.sp] + fit + s.data[s.sp + |fit|..], sp := s.sp + |fit|)
  }

  /** `copy_return_vars_and_pop`; `list` is None when the parameter is not a list. */
  function Return(s: Stack, list: Option<seq<Token>>): (r: Stack)
    requires WF(s)
    ensures WF(r)
  {
    if list.None? then PopFrame(s) else PushAll(PopFrame(s), FirstFew(Named(Locals(s), list.value), RETURN_MAX))
  }

  // ---- calls -----------------------------------------------------------------

  /** Frames lie one above the other, and the newest one's scratch cells are on top. */
  predicate Nested(s: Stack) {
    && (forall k :: 0 < k < |s.frames| ==> s.frames[k - 1].scratch <= s.frames[k].base)
    && TopScratch(s) <= s.sp
  }

  /** Where the current frame's scratch cells start. */
  function TopScratch(s: Stack): nat {
    if s.frames == [] then 0 else s.frames[|s.frames| - 1].scratch
  }

  /** What the body of a call does, nested calls included. */
  datatype Act =
    | DoPush(cell: Cell)
    | DoPop
    | DoSet(index: nat, cell: Cell)
    | Enter(params: nat, locals: nat)
    | Leave(list: Option<seq<Token>>)

  /**
   The discipline of generated code: scratch pops stop at the frame's scratch base, a nested call's
   params come from the caller's scratch cells, and a body leaves only the calls it entered.
   */
  predicate Disciplined(s: Stack, a: Act, floor: nat) {
    match a
    case DoPush(_) => s.sp < |s.data|
    case DoPop => s.sp > TopScratch(s)
    case DoSet(_, _) => true
    case Enter(params, locals) => CanPushFrame(s, params, locals) && params <= s.sp - TopScratch(s)
    case Leave(_) => |s.frames| > floor
  }

  function Do(s: Stack, a: Act): (r: Stack)
    requires WF(s) && s.sp >= TopScratch(s) && Disciplined(s, a, 0)
    ensures WF(r)
  {
    match a
    case DoPush(c) => Push(s, c).value
    case DoPop => s.(sp := s.sp - 1)
    case DoSet(i, c) => if SetLocal(s, i, c).Some? then SetLocal(s, i, c).value else s
    case Enter(params, locals) => PushFrame(s, params, locals).value
    case Leave(list) => Return(s, list)
  }

  /** The acts can be done in order and leave no frame at or below `floor`. */
  predicate CanRun(s: Stack, acts: seq<Act>, floor: nat)
    requires WF(s)
    decreases |acts|
  {
    acts == [] || (s.sp >= TopScratch(s) && Disciplined(s, acts[0], floor) && Disciplined(s, acts[0], 0) &&
                   CanRun(Do(s, acts[0]), acts[1..], floor))
  }

  function Run(s: Stack, acts: seq<Act>, floor: nat): (r: Stack)
    requires WF(s) && CanRun(s, acts, floor)
    ensures WF(r)
    decreases |acts|
  {
    if acts == [] then s else Run(Do(s, acts[0]), acts[1..], floor)
  }

  /**
   The values of a call's own variables after its body, seen without any stack: writes made while a
   nested call is active (`depth` > 0) are that call's.
   */
  function Written(vals: seq<Cell>, acts: seq<Act>, depth: nat): (r: seq<Cell>)
    ensures |r| == |vals|
    decreases |acts|
  {
    if acts == [] then vals
    else match acts[0]
      case DoSet(i, c) => Written(if depth == 0 && i < |vals| then vals[i := c] else vals, acts[1..], depth)
      case Enter(_, _) => Written(vals, acts[1..], depth + 1)
      case Leave(_) => Written(vals, acts[1..], if depth > 0 then depth - 1 else 0)
      case _ => Written(vals, acts[1..], depth)
  }

  /** Inside a call: its frame and the older ones are `frames`, `low` lies below it, its variables are `vals`. */
  ghost predicate InCall(s: Stack, frames: seq<Frame>, low: seq<Cell>, vals: seq<Cell>) {
    && WF(s) && Nested(s) && 0 < |frames| <= |s.frames| && s.frames[..|frames|] == frames
    && var f := frames[|frames| - 1];
    && f.base == |low| && f.scratch == |low| + |vals| <= |s.data|
    && s.data[..f.scratch] == low + vals
  }

  /** Frames above the call's own lie above its variables. */
  lemma {:induction false} FramesRise(s: Stack, lo: nat, hi: nat)
    requires WF(s) && Nested(s) && lo < hi < |s.frames|
    ensures s.frames[lo].scratch <= s.frames[hi].base
    decreases hi
  {
    if lo + 1 < hi {
      FramesRise(s, lo, hi - 1);
      assert FrameOk(s.frames[hi - 1], |s.data|);
    }
  }

  /** The call's own variables lie below the newest frame's scratch cells, and below its base if that one is nested. */
  lemma OwnBelowTop(s: Stack, frames: seq<Frame>, low: seq<Cell>, vals: seq<Cell>)
    requires InCall(s, frames, low, vals)
    ensures |low| + |vals| <= TopScratch(s) <= s.sp
    ensures |s.frames| > |frames| ==> |low| + |vals| <= s.frames[|s.frames| - 1].base
  {
    var n := |s.frames| - 1;
    assert frames[|frames| - 1] == s.frames[|frames| - 1] && FrameOk(s.frames[n], |s.data|);
    if n > |frames| - 1 { FramesRise(s, |frames| - 1, n); }
  }

  /** What lies below the call's scratch cells decides whether the call is intact. */
  lemma InCallFrame(s: Stack, t: Stack, frames: seq<Frame>, low: seq<Cell>, vals: seq<Cell>)
    requires InCall(s, frames, low, vals) && WF(t) && Nested(t)
    requires |frames| <= |t.frames| && t.frames[..|frames|] == frames
    requires |low| + |vals| <= |t.data| && t.data[..|low| + |vals|] == s.data[..|low| + |vals|]
    ensures InCall(t, frames, low, vals)
  {}

  lemma SetKeeps(s: Stack, i: nat, c: Cell, frames: seq<Frame>, low: seq<Cell>, vals: seq<Cell>)
    requires InCall(s, frames, low, vals)
    ensures InCall(Do(s, DoSet(i, c)), frames, low,
                   if |s.frames| == |frames| && i < |vals| then vals[i := c] else vals)
  {
    var t := Do(s, DoSet(i, c));
    var size := |low| + |vals|;
    OwnBelowTop(s, frames, low, vals);
    assert FrameOk(s.frames[|s.frames| - 1], |s.data|);
    if |s.frames| == |frames| && i < |vals| {
      assert s.frames[|s.frames| - 1] == frames[|frames| - 1];
      assert t.data[..size] == low + vals[i := c];
    } else {
      assert t.data[..size] == s.data[..size];
    }
  }

  lemma EnterKeeps(s: Stack, params: nat, locals: nat, frames: seq<Frame>, low: seq<Cell>, vals: seq<Cell>)
    requires InCall(s, frames, low, vals) && Disciplined(s, Enter(params, locals), 0)
    ensures InCall(PushFrame(s, params, locals).value, frames, low, vals)
  {
    var t := PushFrame(s, params, locals).value;
    var size := |low| + |vals|;
    OwnBelowTop(s, frames, low, vals);
    assert t.data[..size] == s.data[..size];
    assert t.frames[..|frames|] == frames;
    InCallFrame(s, t, frames, low, vals);
  }

  /** Returning restores the caller's frames and what lies below the params; the results go on top of that. */
  lemma ReturnKeeps(s: Stack, list: Option<seq<Token>>)
    requires WF(s) && Nested(s) && s.frames != []
    ensures var t := Return(s, list);
      var base := s.frames[|s.frames| - 1].base;
      && Nested(t) && t.frames == s.frames[..|s.frames| - 1] && |t.data| == |s.data|
      && base <= t.sp && t.data[..base] == s.data[..base]
      && Live(t) == s.data[..base] + FirstFew(
           if list.None? then [] else FirstFew(Named(Locals(s), list.value), RETURN_MAX), |s.data| - base)
  {
    var n := |s.frames| - 1;
    assert FrameOk(s.frames[n], |s.data|);
    if n > 0 { assert s.frames[n - 1].scratch <= s.frames[n].base; }
  }

  lemma LeaveKeeps(s: Stack, list: Option<seq<Token>>, frames: seq<Frame>, low: seq<Cell>, vals: seq<Cell>)
    requires InCall(s, frames, low, vals) && |s.frames| > |frames|
    ensures InCall(Return(s, list), frames, low, vals)
  {
    hide Return;
    var t := Return(s, list);
    var size, base := |low| + |vals|, s.frames[|s.frames| - 1].base;
    OwnBelowTop(s, frames, low, vals);
    ReturnKeeps(s, list);
    assert t.data[..size] == t.data[..base][..size] && s.data[..size] == s.data[..base][..size];
    assert t.frames[..|frames|] == frames;
    InCallFrame(s, t, frames, low, vals);
  }

  /** One act of the body, at any nesting depth. */
  lemma ActKeeps(s: Stack, a: Act, frames: seq<Frame>, low: seq<Cell>, vals: seq<Cell>)
    requires InCall(s, frames, low, vals) && Disciplined(s, a, |frames|) && Disciplined(s, a, 0)
    ensures var t := Do(s, a);
      var depth := |s.frames| - |frames|;
      && InCall(t, frames, low, if a.DoSet? && depth == 0 && a.index < |vals| then vals[a.index := a.cell] else vals)
      && |t.frames| == |s.frames| + (if a.Enter? then 1 else if a.Leave? then -1 else 0)
  {
    hide Return;
    var t := Do(s, a);
    OwnBelowTop(s, frames, low, vals);
    match a {
      case DoPush(c) =>
        assert t.data[..|low| + |vals|] == s.data[..|low| + |vals|];
        InCallFrame(s, t, frames, low, vals);
      case DoPop => InCallFrame(s, t, frames, low, vals);
      case DoSet(i, c) => SetKeeps(s, i, c, frames, low, vals);
      case Enter(params, locals) => EnterKeeps(s, params, locals, frames, low, vals);
      case Leave(list) =>
        LeaveKeeps(s, list, frames, low, vals);
        ReturnKeeps(s, list);
    }
  }

  lemma {:induction false} BodyKeeps(s: Stack, acts: seq<Act>, frames: seq<Frame>, low: seq<Cell>, vals: seq<Cell>)
    requires InCall(s, frames, low, vals) && CanRun(s, acts, |frames|)
    ensures InCall(Run(s, acts, |frames|), frames, low, Written(vals, acts, |s.frames| - |frames|))
    decreases |acts|
  {
    hide InCall, Do;
    if acts != [] {
      var a := acts[0];
      assert WF(s) && |frames| <= |s.frames| by { InCallFacts(s, frames, low, vals); }
      ActKeeps(s, a, frames, low, vals);
      var t := Do(s, a);
      var vals' := if a.DoSet? && |s.frames| == |frames| && a.index < |vals| then vals[a.index := a.cell] else vals;
      BodyKeeps(t, acts[1..], frames, low, vals');
    }
  }

  lemma InCallFacts(s: Stack, frames: seq<Frame>, low: seq<Cell>, vals: seq<Cell>)
    requires InCall(s, frames, low, vals)
    ensures WF(s) && 0 < |frames| <= |s.frames|
  {}

  /** The variables a call starts with: its params as the caller pushed them, then zeroed locals. */
  function Arguments(s: Stack, params: nat, locals: nat): (r: seq<Cell>)
    requires WF(s) && params <= s.sp
    ensures |r| == params + locals
  {
    s.data[s.sp - params..s.sp] + seq(locals, _ => ZERO_CELL)
  }

  lemma EnterStarts(s: Stack, params: nat, locals: nat)
    requires WF(s) && Nested(s) && CanPushFrame(s, params, locals) && params <= s.sp - TopScratch(s)
    ensures var t := PushFrame(s, params, locals).value;
      InCall(t, t.frames, s.data[..s.sp - params], Arguments(s, params, locals))
  {
    var t := PushFrame(s, params, locals).value;
    assert t.frames[..|t.frames|] == t.frames;
    assert t.data[..s.sp + locals] == s.data[..s.sp - params] + Arguments(s, params, locals);
  }

  /** A call the discipline allows: params in the caller's scratch, a body that ends at the call's own level. */
  predicate CanCall(s: Stack, params: nat, locals: nat, body: seq<Act>)
    requires WF(s)
  {
    Nested(s) && CanPushFrame(s, params, locals) && params <= s.sp - TopScratch(s) &&
    var s1 := PushFrame(s, params, locals).value;
    CanRun(s1, body, |s1.frames|) && |Run(s1, body, |s1.frames|).frames| == |s1.frames|
  }

  /** The stack when the body is done and the frame still there. */
  function CallBody(s: Stack, params: nat, locals: nat, body: seq<Act>): (r: Stack)
    requires WF(s) && CanCall(s, params, locals, body)
    ensures WF(r)
  {
    var s1 := PushFrame(s, params, locals).value;
    Run(s1, body, |s1.frames|)
  }

  /** What a call returns, computed from its params and its own writes alone. */
  function Results(s: Stack, params: nat, locals: nat, body: seq<Act>, list: seq<Token>): seq<Cell>
    requires WF(s) && params <= s.sp <= |s.data|
  {
    var base := s.sp - params;
    FirstFew(FirstFew(Named(Written(Arguments(s, params, locals), body, 0), list), RETURN_MAX), |s.data| - base)
  }

  /**
   The calling convention: whatever a body does, nested calls included, returning from it leaves every
   outer frame and every cell below the params as they were, and puts in the place of the params the
   listed variables, in order, at most 16 of them. Their values depend only on the params and on the
   body's own writes.
   */
  lemma CallingConvention(s: Stack, params: nat, locals: nat, body: seq<Act>, list: seq<Token>)
    requires WF(s) && CanCall(s, params, locals, body)
    ensures var t := Return(CallBody(s, params, locals, body), Some(list));
      && Nested(t) && t.frames == s.frames && |t.data| == |s.data|
      && Live(t) == Live(s)[..s.sp - params] + Results(s, params, locals, body, list)
  {
    hide Return, Do, Named, Written, Arguments;
    var s1 := PushFrame(s, params, locals).value;
    var vals, low := Arguments(s, params, locals), s.data[..s.sp - params];
    EnterStarts(s, params, locals);
    BodyKeeps(s1, body, s1.frames, low, vals);
    SizeKept(s1, body, |s1.frames|);
    var s2 := Run(s1, body, |s1.frames|);
    OwnLocals(s2, s1.frames, low, Written(vals, body, 0));
    ReturnKeeps(s2, Some(list));
  }

  /**
   What the caller finds: the variables the list names, in its order, up to 16 of them and as many as the stack has
   room for.
   */
  lemma ResultsListed(s: Stack, params: nat, locals: nat, body: seq<Act>, list: seq<Token>)
    requires WF(s) && params <= s.sp <= |s.data|
    requires forall k :: 0 <= k < |list| ==> Names(Written(Arguments(s, params, locals), body, 0), list[k])
    ensures var r, vals := Results(s, params, locals, body, list), Written(Arguments(s, params, locals), body, 0);
      && |r| <= |list| && |r| <= 16 && |r| <= |s.data| - (s.sp - params)
      && (|r| == |list| || |r| == 16 || |r| == |s.data| - (s.sp - params))
      && forall k :: 0 <= k < |r| ==> Names(vals, list[k]) && r[k] == vals[list[k].word % 65536]
  {
    hide Written, Arguments, Named;
    NamedInOrder(Written(Arguments(s, params, locals), body, 0), list);
  }

  /** What the body reads of its own variables is what it wrote last, or what the call started with. */
  lemma ReadsOwnWrites(s: Stack, params: nat, locals: nat, body: seq<Act>, i: nat)
    requires WF(s) && CanCall(s, params, locals, body)
    ensures GetLocal(CallBody(s, params, locals, body), i) ==
      if i < params + locals then Some(Written(Arguments(s, params, locals), body, 0)[i]) else None
  {
    hide Do, Written, Arguments;
    var s1 := PushFrame(s, params, locals).value;
    var vals, low := Arguments(s, params, locals), s.data[..s.sp - params];
    EnterStarts(s, params, locals);
    BodyKeeps(s1, body, s1.frames, low, vals);
    var t := Run(s1, body, |s1.frames|);
    OwnLocals(t, s1.frames, low, Written(vals, body, 0));
    LocalIs(t, i);
  }

  lemma LocalIs(s: Stack, i: nat)
    requires WF(s)
    ensures GetLocal(s, i) == if i < |Locals(s)| then Some(Locals(s)[i]) else None
  {
    if s.frames != [] { assert FrameOk(s.frames[|s.frames| - 1], |s.data|); }
  }

  /** Back at its own level, the call's variables are the current locals. */
  lemma OwnLocals(s: Stack, frames: seq<Frame>, low: seq<Cell>, vals: seq<Cell>)
    requires InCall(s, frames, low, vals) && |s.frames| == |frames|
    ensures s.frames == frames && Locals(s) == vals
    ensures s.frames[|frames| - 1].base == |low| <= |s.data| && s.data[..|low|] == low
  {
    assert s.frames == s.frames[..|frames|];
    assert FrameOk(s.frames[|frames| - 1], |s.data|);
    assert s.data[..|low|] == (low + vals)[..|low|];
  }

  lemma {:induction false} SizeKept(s: Stack, acts: seq<Act>, floor: nat)
    requires WF(s) && CanRun(s, acts, floor)
    ensures |Run(s, acts, floor).data| == |s.data|
    decreases |acts|
  {
    if acts != [] { SizeKept(Do(s, acts[0]), acts[1..], floor); }
  }

  /** A write to variable `i` of a nested call, seen in the caller's variables when the nested frame is gone. */
  function CallerAfter(s: Stack, params: nat, locals: nat, i: nat, c: Cell): seq<Cell>
    requires WF(s) && CanPushFrame(s, params, locals)
  {
    var t := SetLocal(PushFrame(s, params, locals).value, i, c);
    if t.None? then Locals(s) else Locals(PopFrame(t.value))
  }

  ghost predicate ReachesCaller(s: Stack, params: nat, locals: nat)
    requires WF(s) && CanPushFrame(s, params, locals)
  {
    exists i, c :: CallerAfter(s, params, locals, i, c) != Locals(s)
  }

  /** Such a write shows exactly if its cell is one of the caller's. */
  lemma WriteSeen(s: Stack, params: nat, locals: nat, i: nat, c: Cell)
    requires WF(s) && Nested(s) && CanPushFrame(s, params, locals) && s.frames != []
    ensures var f := s.frames[|s.frames| - 1];
      var at := s.sp - params + i;
      && |Locals(s)| == f.params + f.locals
      && CallerAfter(s, params, locals, i, c) ==
         if i < params + locals && f.base <= at < f.scratch then Locals(s)[at - f.base := c] else Locals(s)
  {
    var f := s.frames[|s.frames| - 1];
    var at := s.sp - params + i;
    assert FrameOk(f, |s.data|);
    var s1 := PushFrame(s, params, locals).value;
    var t := SetLocal(s1, i, c);
    if t.Some? {
      assert PopFrame(t.value).frames == s.frames;
      assert t.value.data == s1.data[at := c];
      assert s1.data[f.base..f.scratch] == s.data[f.base..f.scratch];
      assert t.value.data[f.base..f.scratch]
          == if f.base <= at < f.scratch then s1.data[f.base..f.scratch][at - f.base := c] else s1.data[f.base..f.scratch];
    }
  }

  /**
   The code checks a nested call's params against the stack height only. Its writes stay off its caller's
   variables exactly when the params fit in the caller's scratch cells.
   */
  lemma ParamsMustBeScratch(s: Stack, params: nat, locals: nat)
    requires WF(s) && Nested(s) && CanPushFrame(s, params, locals) && Locals(s) != []
    ensures ReachesCaller(s, params, locals) <==> params > s.sp - TopScratch(s)
  {
    hide CallerAfter;
    assert s.frames != [];
    hide Locals;
    var f := s.frames[|s.frames| - 1];
    assert FrameOk(f, |s.data|);
    if params > s.sp - TopScratch(s) {
      var i := f.scratch - 1 - (s.sp - params);
      var last := f.scratch - 1 - f.base;
      WriteSeen(s, params, locals, i, ZERO_CELL);
      var c := Cell(Locals(s)[last].tag + 1, 0);
      WriteSeen(s, params, locals, i, c);
      assert CallerAfter(s, params, locals, i, c)[last] == c;
    } else {
      forall i, c
        ensures CallerAfter(s, params, locals, i, c) == Locals(s)
      {
        WriteSeen(s, params, locals, i, c);
      }
    }
  }

  // ---- the node --------------------------------------------------------------

  datatype NodeEvent = EvInit | EvTick | EvTerminate

  /** The stack, the node's state byte, and whether the node asked to be terminated. */
  datatype NodeResult = NodeResult(s: Stack, state: nat, failed: bool)

  /** `se_stack_frame_instance`; the stack top is the number of params the caller passed. */
  function FrameNode(s: Stack, state: nat, params: nat, locals: nat, list: Option<seq<Token>>, ev: NodeEvent): (r: NodeResult)
    requires WF(s)
    ensures WF(r.s)
  {
    match ev
    case EvTick => NodeResult(s, state, false)
    case EvTerminate => NodeResult(if state == 1 then Return(s, list) else s, 0, false)
    case EvInit =>
      if s.sp == 0 then NodeResult(s, state, true)
      else
        var t := s.(sp := s.sp - 1);
        if s.data[t.sp].word % 0x1_0000 != params then NodeResult(t, state, true)
        else
          var f := PushFrame(t, params, locals);
          if f.None? then NodeResult(t, state, true) else NodeResult(f.value, 1, false)
  }

  /**
   INIT opens a frame if and only if there is a count on top, it is the number of params in its low 16 bits, and the
   frame fits under it. Otherwise the node asks to be terminated, keeps its state, and no frame is opened; a count
   that was there is consumed all the same. A tick changes nothing.
   */
  lemma InitOpensIff(s: Stack, state: nat, params: nat, locals: nat, list: Option<seq<Token>>)
    requires WF(s)
    ensures var r, s0 := FrameNode(s, state, params, locals, list, EvInit), if s.sp == 0 then s else s.(sp := s.sp - 1);
      && (r.failed <==> !(s.sp > 0 && s.data[s.sp - 1].word % 65536 == params
                          && |s.frames| < MAX_FRAMES && s.sp - 1 + locals <= |s.data| && params <= s.sp - 1))
      && (r.failed ==> r.s == s0 && r.state == state)
      && (!r.failed ==> r.state == 1 && |r.s.frames| == |s.frames| + 1 && r.s.frames[..|s.frames|] == s.frames)
    ensures FrameNode(s, state, params, locals, list, EvTick) == NodeResult(s, state, false)
  {
    if s.sp > 0 {
      var t := s.(sp := s.sp - 1);
      var f := PushFrame(t, params, locals);
      if f.Some? { assert f.value.frames[..|s.frames|] == s.frames; }
    }
  }

  /**
   The life of a call node within one tick: INIT with the count on top, any body, then TERMINATE, which may come
   again. The frame is pushed once and popped once, the count is consumed, and the results replace the params.
   */
  lemma CallNodeLifecycle(s: Stack, params: nat, locals: nat, list: seq<Token>, body: seq<Act>)
    requires WF(s) && s.sp > 0 && s.data[s.sp - 1].word % 0x1_0000 == params
    requires CanCall(s.(sp := s.sp - 1), params, locals, body)
    ensures var s0 := s.(sp := s.sp - 1);
      var closed := FrameNode(CallBody(s0, params, locals, body), 1, params, locals, Some(list), EvTerminate);
      && FrameNode(s, 0, params, locals, Some(list), EvInit) == NodeResult(PushFrame(s0, params, locals).value, 1, false)
      && closed.s.frames == s.frames
      && Live(closed.s) == Live(s)[..s.sp - 1 - params] + Results(s0, params, locals, body, list)
      && FrameNode(closed.s, closed.state, params, locals, Some(list), EvTerminate) == closed
  {
    hide Return, Results, CallBody, Run, CanRun;
    CallingConvention(s.(sp := s.sp - 1), params, locals, body, list);
  }

  // ---- across ticks ----------------------------------------------------------

  /** `s_expr_tree_reset_stack`: what is on the stack, and every open frame, is given up. */
  function NewTick(s: Stack): (r: Stack)
    requires WF(s)
    ensures WF(r)
  {
    s.(sp := 0, frames := [])
  }

  lemma {:induction false} NothingNamed(list: seq<Token>)
    ensures Named([], list) == []
  {
    if list != [] { NothingNamed(list[..|list| - 1]); }
  }

  lemma ReturnWithoutFrame(s: Stack, list: seq<Token>)
    requires WF(s) && s.frames == []
    ensures Return(s, Some(list)) == s
  {
    NothingNamed(list);
    assert s.data[..s.sp] + [] + s.data[s.sp..] == s.data;
  }

  /**
   A call whose body goes on in a later tick has lost its frame: its params and locals cannot be read or written,
   and its TERMINATE, `rest` of that tick having been done, does nothing if and only if no frame is open then.
   If one is, it belongs to another call, and that one is closed. The call's own results are never delivered.
   */
  lemma CallAcrossTicks(s: Stack, params: nat, locals: nat, list: seq<Token>, rest: seq<Act>)
    requires WF(s) && CanRun(NewTick(s), rest, 0)
    ensures forall i :: GetLocal(NewTick(s), i).None?
    ensures forall i, c :: SetLocal(NewTick(s), i, c).None?
    ensures var u := Run(NewTick(s), rest, 0);
      var closed := FrameNode(u, 1, params, locals, Some(list), EvTerminate);
      && (closed.s == u <==> u.frames == [])
      && (u.frames != [] ==> closed.s.frames == u.frames[..|u.frames| - 1])
      && !closed.failed && closed.state == 0
  {
    hide Run, CanRun;
    var u := Run(NewTick(s), rest, 0);
    if u.frames == [] { ReturnWithoutFrame(u, list); }
  }
}
