/**
 The parameter stack as the program runs it: a data array with a stack pointer and a fixed table of
 frames, shifted and overwritten in place. Every method is proved equal to the function of
 `SeStackModel` on the abstract state. Where the code raises EXCEPTION, which does not return, the
 method returns false and changes nothing more.
 */
module SeStack {
  import opened Arith
  import opened Options
  import opened SeStackModel

  /** Rotating right by one more place. */
  lemma RotateStep<T>(seg: seq<T>, r: nat)
    requires 0 < |seg| && r < |seg|
    ensures var s := Rotated(seg, r); [s[|s| - 1]] + s[..|s| - 1] == Rotated(seg, r + 1)
  {
    RotatedByOne(Rotated(seg, r));
    RotatePlus(seg, r, 1);
  }

  /** Rotating left by one undoes one place. */
  lemma RotateLeftStep<T>(seg: seq<T>, k: int)
    requires 0 < |seg|
    ensures var s := Rotated(seg, k); s[1..] + [s[0]] == Rotated(seg, k - 1)
  {
    hide Rotated;
    RotatePlus(seg, k, -1);
    RotatedByMinusOne(Rotated(seg, k));
  }

  lemma RotatedByMinusOne<T>(seg: seq<T>)
    requires 0 < |seg|
    ensures Rotated(seg, -1) == seg[1..] + [seg[0]]
  {
    ModUnique(-1, |seg|, -1, |seg| - 1);
  }

  lemma RotateMod<T>(seg: seq<T>, n: int)
    requires |seg| > 0
    ensures Rotated(seg, n % |seg|) == Rotated(seg, n)
    ensures Rotated(seg, 0) == seg
  {
    ModUnique(n % |seg|, |seg|, 0, n % |seg|);
    ModUnique(0, |seg|, 0, 0);
  }

  /** Most of the way round to the right is a little to the left. */
  lemma RotateRound<T>(seg: seq<T>, k: int)
    requires |seg| > 0
    ensures Rotated(seg, 0 - (|seg| - k)) == Rotated(seg, k)
  {
    var len := |seg|;
    assert k == (k / len) * len + k % len;
    assert k - len == (k / len - 1) * len + k % len;
    ModUnique(k - len, len, k / len - 1, k % len);
  }

  lemma ThreeParts<T>(a: seq<T>, lo: nat, hi: nat)
    requires lo <= hi <= |a|
    ensures a == a[..lo] + a[lo..hi] + a[hi..]
  {}

  lemma RotateOne<T>(seg: seq<T>, n: int)
    requires |seg| == 1
    ensures Rotated(seg, n) == seg
  {}

  /** A segment turned right by one, as the whole array. */
  lemma Turned(a: seq<Cell>, b: seq<Cell>, lo: nat, hi: nat)
    requires lo < hi <= |a| == |b| && b[..lo] == a[..lo] && b[hi..] == a[hi..]
    requires b[lo..hi] == [a[hi - 1]] + a[lo..hi - 1]
    ensures b == a[..lo] + [a[hi - 1]] + a[lo..hi - 1] + a[hi..]
  {
    ThreeParts(b, lo, hi);
  }

  /** The two arrays of a stack are not one. */
  ghost predicate Distinct(a: object, b: object) { a != b }

  class ParamStack {
    const data: array<Cell>
    const frames: array<Frame>
    var sp: nat
    var frameCount: nat

    ghost predicate Shaped()
      reads this
    {
      frames.Length == MAX_FRAMES && frameCount <= MAX_FRAMES && sp <= data.Length && Distinct(data, frames)
    }

    ghost function Abs(): Stack
      requires Shaped()
      reads this, data, frames
    {
      Stack(data[..], sp, frames[..frameCount])
    }

    ghost predicate Valid()
      reads this, data, frames
    {
      Shaped() && WF(Abs())
    }

    /** A stack of `capacity` cells, in memory an allocator has zeroed. */
    constructor (capacity: nat)
      ensures Valid() && fresh(data) && fresh(frames) && data.Length == capacity
      ensures sp == 0 && Abs().frames == []
    {
      data := new Cell[capacity](_ => ZERO_CELL);
      frames := new Frame[MAX_FRAMES](_ => Frame(0, 0, 0, 0));
      sp, frameCount := 0, 0;
    }

    /** `s_expr_stack_push` */
    method Push(c: Cell) returns (ok: bool)
      requires Valid()
      modifies this, data
      ensures Valid() && ok == SeStackModel.Push(old(Abs()), c).Some?
      ensures ok ==> Abs() == SeStackModel.Push(old(Abs()), c).value
      ensures !ok ==> Abs() == old(Abs())
    {
      if sp >= data.Length { return false; }
      data[sp] := c;
      sp := sp + 1;
      assert data[..] == old(data[..])[old(sp) := c];
      ok := true;
    }

    /** The inner loop of a right turn: the top cell goes to `at`, the others move up one. */
    method TurnRight(at: nat)
      requires Valid() && at < sp
      modifies data
      ensures Valid()
      ensures data[..at] == old(data[..at]) && data[sp..] == old(data[sp..])
      ensures data[at..sp] == [old(data[sp - 1])] + old(data[at..sp - 1])
    {
      var temp := data[sp - 1];
      ShiftUp(at);
      data[at] := temp;
      assert data[at..sp] == [data[at]] + data[at + 1..sp];
    }

    /** The cells from `at` to below the top move up one; the first one stays behind. */
    method ShiftUp(at: nat)
      requires Valid() && at < sp
      modifies data
      ensures Valid()
      ensures data[..at + 1] == old(data[..at + 1]) && data[at + 1..sp] == old(data[at..sp - 1])
      ensures data[sp..] == old(data[sp..])
    {
      for i := sp downto at + 1
        invariant data[..i] == old(data[..i])
        invariant data[i..sp] == old(data[i - 1..sp - 1])
        invariant data[sp..] == old(data[sp..])
      {
        data[i] := data[i - 1];
      }
    }

    /** The inner loop of a left turn. */
    method TurnLeft(at: nat)
      requires Valid() && at < sp
      modifies data
      ensures Valid()
      ensures data[..at] == old(data[..at]) && data[sp..] == old(data[sp..])
      ensures data[at..sp] == old(data[at + 1..sp]) + [old(data[at])]
    {
      var temp := data[at];
      ShiftDown(at);
      data[sp - 1] := temp;
      assert data[at..sp] == data[at..sp - 1] + [data[sp - 1]];
    }

    /** The cells above `at` move down one; the last one stays behind. */
    method ShiftDown(at: nat)
      requires Valid() && at < sp
      modifies data
      ensures Valid()
      ensures data[..at] == old(data[..at]) && data[at..sp - 1] == old(data[at + 1..sp])
      ensures data[sp - 1..] == old(data[sp - 1..])
    {
      for i := at to sp - 1
        invariant data[..at] == old(data[..at])
        invariant data[at..i] == old(data[at + 1..i + 1])
        invariant data[i..] == old(data[i..])
      {
        data[i] := data[i + 1];
      }
    }

    /** `s_expr_stack_rotate`: the shorter way round, one place at a time. */
    method Rotate(idx: int, n: int) returns (ok: bool)
      requires Valid()
      modifies data
      ensures Valid() && ok == SeStackModel.Rotate(old(Abs()), idx, n).Some?
      ensures Abs() == if ok then SeStackModel.Rotate(old(Abs()), idx, n).value else old(Abs())
    {
      hide Rotated;
      var index := ArrayIndex(sp, idx);
      if index.None? { return false; }
      var at := index.value;
      var len := sp - at;
      ghost var seg := data[at..sp];
      ThreeParts(data[..], at, sp);
      RotateMod(seg, n);
      if len <= 1 {
        RotateOne(seg, n);
        return true;
      }
      var k := Turns(n, len);
      if k <= len / 2 {
        RightTurns(at, k);
      } else {
        LeftTurns(at, len - k);
        RotateRound(seg, k);
      }
      ThreeParts(data[..], at, sp);
      ok := true;
    }

    method RightTurns(at: nat, k: nat)
      requires Valid() && at < sp && k <= sp - at
      modifies data
      ensures Valid() && data[..at] == old(data[..at]) && data[sp..] == old(data[sp..])
      ensures data[at..sp] == Rotated(old(data[at..sp]), k)
    {
      hide Rotated;
      ghost var seg := data[at..sp];
      RotateMod(seg, 0);
      for r := 0 to k
        invariant Valid() && data[..at] == old(data[..at]) && data[sp..] == old(data[sp..])
        invariant data[at..sp] == Rotated(seg, r)
      {
        ghost var now := data[at..sp];
        assert data[sp - 1] == now[|now| - 1] && data[at..sp - 1] == now[..|now| - 1];
        RotateStep(seg, r);
        TurnRight(at);
      }
    }

    method LeftTurns(at: nat, k: nat)
      requires Valid() && at < sp
      modifies data
      ensures Valid() && data[..at] == old(data[..at]) && data[sp..] == old(data[sp..])
      ensures data[at..sp] == Rotated(old(data[at..sp]), 0 - k)
    {
      hide Rotated;
      ghost var seg := data[at..sp];
      RotateMod(seg, 0);
      for r := 0 to k
        invariant Valid() && data[..at] == old(data[..at]) && data[sp..] == old(data[sp..])
        invariant data[at..sp] == Rotated(seg, 0 - r)
      {
        ghost var now := data[at..sp];
        assert data[at] == now[0] && data[at + 1..sp] == now[1..];
        RotateLeftStep(seg, 0 - r);
        TurnLeft(at);
      }
    }

    /** `s_expr_stack_insert` */
    method Insert(idx: int) returns (ok: bool)
      requires Valid()
      modifies data
      ensures Valid() && ok == SeStackModel.Insert(old(Abs()), idx).Some?
      ensures Abs() == if ok then SeStackModel.Insert(old(Abs()), idx).value else old(Abs())
    {
      hide FrameOk, ArrayIndex;
      ghost var before := data[..];
      var index := ArrayIndex(sp, idx);
      if index.None? { return false; }
      TurnRight(index.value);
      Turned(before, data[..], index.value, sp);
      ok := true;
    }

    /** `s_expr_stack_remove` */
    method Remove(idx: int) returns (ok: bool)
      requires Valid()
      modifies this, data
      ensures Valid() && ok == SeStackModel.Remove(old(Abs()), idx).Some?
      ensures Abs() == if ok then SeStackModel.Remove(old(Abs()), idx).value else old(Abs())
    {
      var index := ArrayIndex(sp, idx);
      if index.None? { return false; }
      ShiftDown(index.value);
      assert data[..] == data[..index.value] + data[index.value..sp - 1] + data[sp - 1..];
      sp := sp - 1;
      ok := true;
    }

    /** `s_expr_stack_push_frame`: the locals are zeroed one by one. */
    method PushFrame(params: nat, locals: nat) returns (ok: bool)
      requires Valid()
      modifies this, data, frames
      ensures Valid() && ok == SeStackModel.PushFrame(old(Abs()), params, locals).Some?
      ensures Abs() == if ok then SeStackModel.PushFrame(old(Abs()), params, locals).value else old(Abs())
    {
      if frameCount >= MAX_FRAMES || sp + locals > data.Length || params > sp { return false; }
      frames[frameCount] := Frame(sp - params, params, locals, sp + locals);
      frameCount := frameCount + 1;
      assert frames[..frameCount] == old(frames[..frameCount]) + [Frame(sp - params, params, locals, sp + locals)];
      ghost var zeros := seq(locals, _ => ZERO_CELL);
      for i := 0 to locals
        invariant sp == old(sp) + i
        invariant data[..sp] == old(data[..sp]) + zeros[..i]
        invariant forall k :: sp <= k < data.Length ==> data[k] == old(data[..])[k]
        modifies data, this`sp
      {
        data[sp] := ZERO_CELL;
        sp := sp + 1;
      }
      assert data[sp..] == old(data[..])[sp..];
      assert data[..] == data[..sp] + data[sp..];
      assert Abs() == SeStackModel.PushFrame(old(Abs()), params, locals).value;
      ok := true;
    }

    /** `s_expr_stack_pop_frame` */
    method PopFrame()
      requires Valid()
      modifies this
      ensures Valid() && Abs() == SeStackModel.PopFrame(old(Abs()))
    {
      if frameCount == 0 { return; }
      assert FrameOk(Abs().frames[frameCount - 1], data.Length);
      frameCount := frameCount - 1;
      sp := frames[frameCount].base;
      assert frames[..frameCount] == old(frames[..frameCount])[..frameCount];
    }

    /** `s_expr_tree_reset_stack`, which every tick begins with. */
    method ResetStack()
      requires Valid()
      modifies this
      ensures Valid() && Abs() == NewTick(old(Abs()))
    {
      sp, frameCount := 0, 0;
    }

    /** `s_expr_stack_get_local` */
    method GetLocal(i: nat) returns (c: Option<Cell>)
      requires Valid()
      ensures c == SeStackModel.GetLocal(Abs(), i)
    {
      if frameCount == 0 { return None; }
      var f := frames[frameCount - 1];
      assert Abs().frames[frameCount - 1] == f && FrameOk(f, data.Length);
      if i >= f.params + f.locals { return None; }
      c := Some(data[f.base + i]);
    }

    /** `s_expr_stack_set_local` */
    method SetLocal(i: nat, c: Cell) returns (ok: bool)
      requires Valid()
      modifies data
      ensures Valid() && ok == SeStackModel.SetLocal(old(Abs()), i, c).Some?
      ensures Abs() == if ok then SeStackModel.SetLocal(old(Abs()), i, c).value else old(Abs())
    {
      if frameCount == 0 { return false; }
      var f := frames[frameCount - 1];
      assert Abs().frames[frameCount - 1] == f && FrameOk(f, data.Length);
      if i >= f.params + f.locals { return false; }
      data[f.base + i] := c;
      assert data[..] == old(data[..])[f.base + i := c];
      ok := true;
    }

    /** The loop that reads at most 16 listed locals into the temp buffer. */
    method ReadReturns(list: seq<Token>) returns (temp: seq<Cell>)
      requires Valid()
      ensures temp == FirstFew(Named(Locals(Abs()), list), RETURN_MAX)
    {
      hide Named, Locals, SeStackModel.GetLocal;
      temp := [];
      var p := 0;
      NamedNone(Locals(Abs()));
      while p < |list| && |temp| < RETURN_MAX
        invariant p <= |list| && temp == Named(Locals(Abs()), list[..p]) && |temp| <= RETURN_MAX
      {
        NamedStep(Abs(), list, p);
        if list[p].isInt {
          var local := GetLocal(list[p].word % 0x1_0000);
          if local.Some? { temp := temp + [local.value]; }
        }
        p := p + 1;
      }
      assert list[..|list|] == list;
      NamedGrows(Locals(Abs()), list, p);
    }

    /** `copy_return_vars_and_pop` */
    method CopyReturnVarsAndPop(list: Option<seq<Token>>)
      requires Valid()
      modifies this, data
      ensures Valid() && Abs() == Return(old(Abs()), list)
    {
      if list.None? { PopFrame(); return; }
      var temp := ReadReturns(list.value);
      PopFrame();
      PushBack(temp);
    }

    /** The loop that pushes the temp buffer. */
    method PushBack(temp: seq<Cell>)
      requires Valid()
      modifies this, data
      ensures Valid() && Abs() == PushAll(old(Abs()), temp)
    {
      hide PushAll, SeStackModel.Push;
      ghost var s := Abs();
      PushAllNone(s, temp);
      for i := 0 to |temp|
        invariant Valid() && Abs() == PushAll(s, temp[..i])
      {
        PushAllStep(s, temp, i);
        var _ := Push(temp[i]);
      }
      assert temp[..|temp|] == temp;
    }

    /** `se_stack_frame_instance`; the state byte lives in the tree and is passed in and out. */
    method FrameInstance(state: nat, params: nat, locals: nat, list: Option<seq<Token>>, ev: NodeEvent)
      returns (newState: nat, failed: bool)
      requires Valid()
      modifies this, data, frames
      ensures Valid() && NodeResult(Abs(), newState, failed) == FrameNode(old(Abs()), state, params, locals, list, ev)
    {
      match ev
      case EvTick => return state, false;
      case EvTerminate =>
        if state == 1 { CopyReturnVarsAndPop(list); }
        return 0, false;
      case EvInit =>
        if sp == 0 { return state, true; }
        sp := sp - 1;
        if data[sp].word % 0x1_0000 != params { return state, true; }
        var ok := PushFrame(params, locals);
        if !ok { return state, true; }
        return 1, false;
    }
  }

  /** A listed constant adds the local it names, if there is one. */
  lemma NamedStep(s: Stack, list: seq<Token>, p: nat)
    requires WF(s) && p < |list|
    ensures var i := list[p].word % 0x1_0000;
      Named(Locals(s), list[..p + 1]) == Named(Locals(s), list[..p])
        + (if list[p].isInt && SeStackModel.GetLocal(s, i).Some? then [SeStackModel.GetLocal(s, i).value] else [])
  {
    assert list[..p + 1][..p] == list[..p];
    if s.frames != [] { assert FrameOk(s.frames[|s.frames| - 1], |s.data|); }
  }

  lemma PushAllNone(s: Stack, cells: seq<Cell>)
    requires WF(s)
    ensures PushAll(s, cells[..0]) == s
  {}

  lemma NamedNone(locals: seq<Cell>)
    ensures Named(locals, []) == []
  {}

  lemma {:induction false} NamedGrows(locals: seq<Cell>, list: seq<Token>, p: nat)
    requires p <= |list|
    ensures Named(locals, list[..p]) <= Named(locals, list)
    decreases |list| - p
  {
    if p == |list| {
      assert list[..p] == list;
    } else {
      NamedGrows(locals, list, p + 1);
      assert list[..p + 1][..p] == list[..p];
    }
  }

  /** One more push; on a full stack it is lost. */
  lemma PushAllStep(s: Stack, cells: seq<Cell>, i: nat)
    requires WF(s) && i < |cells|
    ensures var t := PushAll(s, cells[..i]);
      PushAll(s, cells[..i + 1]) == if SeStackModel.Push(t, cells[i]).Some? then SeStackModel.Push(t, cells[i]).value else t
  {
    var t := PushAll(s, cells[..i]);
    if i < |s.data| - s.sp {
      assert t.data[t.sp := cells[i]] == s.data[..s.sp] + cells[..i + 1] + s.data[s.sp + i + 1..];
    } else {
      assert FirstFew(cells[..i], |s.data| - s.sp) == FirstFew(cells[..i + 1], |s.data| - s.sp);
    }
  }
}
