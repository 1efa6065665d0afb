/**
 The loop composite `se_while` (`s_engine/runtime/s_engine_builtins_flow_control.h`): a predicate and a
 body that is run to completion, across as many ticks as it takes, before the predicate is asked again.
 */
module SeWhile {
  import opened SeTree
  import opened SeNodes
  import opened SeMachine

  /** Child 0 is a predicate, child 1 the body. */
  predicate Loop(kids: seq<Node>) {
    |kids| >= 2 && kids[0].Call? && kids[0].fn.kind.FPred? && IsMain(kids[1])
  }

  /** `s_expr_child_invoke`: SE_DISABLE terminates the child and becomes SE_CONTINUE. */
  ghost function ChildInvoke(w: World, o: Oracle, fn: Fn): (r: Outcome)
    requires fn.node < |w.states|
    ensures |r.w.states| == |w.states|
  {
    var out := Invoke(w, o, fn);
    if out.code == Code(App, Disable) then Outcome(TerminateChild(out.w, o, fn), Code(App, Continue)) else out
  }

  /** A tick of the body. */
  ghost function RunBody(w: World, o: Oracle, self: nat, kids: seq<Node>): (r: Outcome)
    requires Separate(w.states, self, kids) && Loop(kids)
    ensures |r.w.states| == |w.states|
  {
    var body := kids[1].fn;
    OwnId(w.states, self, kids, 1);
    var out := ChildInvoke(w, o, body);
    if !out.code.level.Pipe? then out
    else if Completes(out.code) then
      Outcome(SetState(Rearm(TerminateChild(out.w, o, body), kids, 1), self, 0), Code(Pipe, Halt))
    else Outcome(out.w, Code(Function, Halt))
  }

  /** `se_while` on a tick: state 0 asks the predicate, state 1 runs the body. */
  ghost function WhileTick(w: World, o: Oracle, self: nat, kids: seq<Node>): (r: Outcome)
    requires Separate(w.states, self, kids) && Loop(kids)
    ensures |r.w.states| == |w.states|
  {
    OwnId(w.states, self, kids, 0);
    match w.states[self].state
    case 0 =>
      var asked := Fire(w, o, kids[0].fn, EvTick);
      if asked.code != Code(Pipe, Continue) then Outcome(asked.w, Code(Pipe, Disable))
      else RunBody(SetState(Rearm(asked.w, kids, 1), self, 1), o, self, kids)
    case 1 => RunBody(w, o, self, kids)
    case _ => Outcome(w, Code(Pipe, Disable))
  }

  /** The world after INIT and `n` ticks. */
  ghost function WhileRun(w: World, o: Oracle, self: nat, kids: seq<Node>, n: nat): (r: World)
    requires Separate(w.states, self, kids) && Loop(kids)
    ensures |r.states| == |w.states|
  {
    if n == 0 then SetState(w, self, 0) else WhileTick(WhileRun(w, o, self, kids, n - 1), o, self, kids).w
  }

  /** What the tick after the first `n` returns. */
  ghost function WhileCode(w: World, o: Oracle, self: nat, kids: seq<Node>, n: nat): Code
    requires Separate(w.states, self, kids) && Loop(kids)
  {
    WhileTick(WhileRun(w, o, self, kids, n), o, self, kids).code
  }

  // ---- the rounds of a loop --------------------------------------------------

  predicate Asked(f: Fired, kids: seq<Node>, truth: bool) {
    kids != [] && kids[0].Call? && Is(f, kids[0].fn, EvTick) && (f.code == Code(Pipe, Continue) <==> truth)
  }

  /** The predicate said no. */
  predicate Refusal(ts: seq<Fired>, kids: seq<Node>) { |ts| == 1 && Asked(ts[0], kids, false) }

  /** The predicate said yes, and the body ran from INIT to completion and TERMINATE. */
  ghost predicate Round(ts: seq<Fired>, kids: seq<Node>)
    requires Loop(kids)
  {
    |ts| >= 1 && Asked(ts[0], kids, true) && exists live, last: Fired, ends :: Ending(kids[1].fn, ts[1..], live, last, ends)
  }

  /** The predicate said yes, and the body is under way. */
  ghost predicate Opened(ts: seq<Fired>, kids: seq<Node>)
    requires Loop(kids)
  {
    |ts| >= 3 && Asked(ts[0], kids, true) && Ticking(kids[1].fn, ts[1..])
  }

  /** The predicate said yes, and the body answered SE_DISABLE and was terminated. */
  ghost predicate Stalled(ts: seq<Fired>, kids: seq<Node>)
    requires Loop(kids)
  {
    var n := |ts| - 1;
    && n >= 3 && Opened(ts[..n], kids) && ts[n - 1].code == Code(App, Disable) && Is(ts[n], kids[1].fn, EvTerm)
  }

  /** The calls so far in chapters, all but the last of them closed. */
  ghost predicate Past(start: World, w: World, kids: seq<Node>, chapters: seq<seq<Fired>>) {
    && Loop(kids) && chapters != [] && w.trace == start.trace + Concat(chapters)
    && forall k :: 0 <= k < |chapters| - 1 ==> Round(chapters[k], kids) || Refusal(chapters[k], kids)
  }

  /** Is the last of the chapters what the composite's state and the body's say? */
  ghost predicate Tells(w: World, self: nat, kids: seq<Node>, last: seq<Fired>)
    requires Loop(kids) && self < |w.states| && kids[1].fn.node < |w.states|
  {
    match w.states[self].state
    case 0 => last == [] && !w.states[kids[1].fn.node].inited
    case 1 => if w.states[kids[1].fn.node].active then w.states[kids[1].fn.node].inited && Opened(last, kids)
              else Stalled(last, kids)
    case _ => false
  }

  /** Closed chapters are rounds and refusals; the stored state tells what the last one is. */
  ghost predicate LoopStory(start: World, w: World, self: nat, kids: seq<Node>, chapters: seq<seq<Fired>>) {
    && Past(start, w, kids, chapters) && Separate(w.states, self, kids) && kids[1].fn.node < |w.states|
    && Tells(w, self, kids, chapters[|chapters| - 1])
  }

  /** One tick of an active body continues its calls, and the answer decides how. */
  lemma BodyTurn(w: World, o: Oracle, self: nat, kids: seq<Node>, ts: seq<Fired>) returns (more: seq<Fired>)
    requires Separate(w.states, self, kids) && Loop(kids)
    requires kids[1].fn.node < |w.states| && w.states[kids[1].fn.node].active
    requires if ts == [] then !w.states[kids[1].fn.node].inited
             else w.states[kids[1].fn.node].inited && |ts| >= 2 && Ticking(kids[1].fn, ts)
    ensures var t, body, code := RunBody(w, o, self, kids).w, kids[1].fn, Invoke(w, o, kids[1].fn).code;
      && t.trace == w.trace + more && Separate(t.states, self, kids)
      && (if Completes(code) then
            && t.states[self].state == 0 && !t.states[body.node].inited
            && exists live, last: Fired, ends :: Ending(body, ts + more, live, last, ends)
          else
            && t.states[self] == w.states[self] && |ts + more| >= 2
            && if code == Code(App, Disable) then
                 var n := |ts + more| - 1;
                 && !t.states[body.node].active && n >= 2 && Ticking(body, (ts + more)[..n])
                 && (ts + more)[n - 1].code == code && Is((ts + more)[n], body, EvTerm)
               else t.states[body.node].active && t.states[body.node].inited && Ticking(body, ts + more))
  {
    hide TerminateChild, Ticking, Ending, DispatchMain;
    var body := kids[1].fn;
    OwnId(w.states, self, kids, 1);
    var out := Invoke(w, o, body);
    if Completes(out.code) {
      more := MainEnds(w, o, body, ts);
      var t := TerminateChild(out.w, o, body);
      assert Rearm(t, kids, 1).states[self] == t.states[self];
    } else {
      more := MainTurn(w, o, body, ts);
      if out.code == Code(App, Disable) {
        var first := more;
        var at := OneTick(w, o, body);
        var end := Told(out.w, o, body);
        more := first + end;
        assert (ts + more)[..|ts + more| - 1] == ts + first;
      }
    }
  }

  /** Terminating an initialized MAIN is one call. */
  lemma Told(w: World, o: Oracle, fn: Fn) returns (more: seq<Fired>)
    requires fn.node < |w.states| && fn.kind.FMain? && w.states[fn.node].inited
    ensures OnlyNode(w, TerminateChild(w, o, fn), fn.node, more) && TerminateChild(w, o, fn).states[fn.node] == OFF_STATE
    ensures |more| == 1 && Is(more[0], fn, EvTerm)
  {
    more := [Fired(fn, EvTerm, Fire(w, o, fn, EvTerm).code)];
  }

  // ---- one tick --------------------------------------------------------------

  /** The last chapter grows by `more`. */
  ghost function Grown(chapters: seq<seq<Fired>>, more: seq<Fired>): seq<seq<Fired>>
    requires chapters != []
  {
    chapters[|chapters| - 1 := chapters[|chapters| - 1] + more]
  }

  /** The last chapter grows by `more` and is closed. */
  ghost function Closed(chapters: seq<seq<Fired>>, more: seq<Fired>): seq<seq<Fired>>
    requires chapters != []
  {
    chapters[..|chapters| - 1] + [chapters[|chapters| - 1] + more, []]
  }

  lemma PastGoesOn(start: World, w: World, t: World, kids: seq<Node>, chapters: seq<seq<Fired>>, more: seq<Fired>)
    requires Past(start, w, kids, chapters) && t.trace == w.trace + more
    ensures chapters != [] && Past(start, t, kids, Grown(chapters, more))
    ensures Round(chapters[|chapters| - 1] + more, kids) || Refusal(chapters[|chapters| - 1] + more, kids) ==>
              Past(start, t, kids, Closed(chapters, more))
  {
    hide Round, Refusal, Concat;
    ChapterCloses(chapters, more);
  }

  /** A tick of the body in terms of its chapter, which starts with the predicate saying yes. */
  lemma BodyChapter(w: World, o: Oracle, self: nat, kids: seq<Node>, last: seq<Fired>) returns (more: seq<Fired>)
    requires Separate(w.states, self, kids) && Loop(kids) && w.states[self].state == 1
    requires last != [] && Asked(last[0], kids, true)
    requires kids[1].fn.node < |w.states| && w.states[kids[1].fn.node].active
    requires if |last| == 1 then !w.states[kids[1].fn.node].inited
             else w.states[kids[1].fn.node].inited && Opened(last, kids)
    ensures var t := RunBody(w, o, self, kids).w;
      && t.trace == w.trace + more && Separate(t.states, self, kids)
      && if Completes(Invoke(w, o, kids[1].fn).code) then
           t.states[self].state == 0 && !t.states[kids[1].fn.node].inited && Round(last + more, kids)
         else t.states[self].state == 1 && Tells(t, self, kids, last + more)
  {
    hide RunBody, Ticking, Ending, Separate, Invoke, Asked;
    more := BodyTurn(w, o, self, kids, last[1..]);
    ChapterOfBody(last, more, kids);
  }

  /** A chapter is the predicate's answer and the body's calls. */
  lemma ChapterOfBody(last: seq<Fired>, more: seq<Fired>, kids: seq<Node>)
    requires Loop(kids) && last != [] && Asked(last[0], kids, true)
    ensures var all, body := last + more, last[1..] + more;
      && ((exists live, last: Fired, ends :: Ending(kids[1].fn, body, live, last, ends)) ==> Round(all, kids))
      && (|body| >= 2 && Ticking(kids[1].fn, body) ==> Opened(all, kids))
      && var n := |body| - 1;
      n >= 2 && Ticking(kids[1].fn, body[..n]) && body[n - 1].code == Code(App, Disable) && Is(body[n], kids[1].fn, EvTerm)
      ==> Stalled(all, kids)
  {
    hide Ticking, Ending, Asked;
    var all, body := last + more, last[1..] + more;
    assert all[1..] == body;
    var n := |body| - 1;
    if n >= 2 {
      assert all[..n + 1][1..] == body[..n];
      assert all[n + 1] == body[n] && all[n] == body[n - 1];
    }
  }

  /** The body has its tick, after `yes` if the predicate was asked in this tick. */
  lemma BodyStory(start: World, w: World, u: World, o: Oracle, self: nat, kids: seq<Node>, chapters: seq<seq<Fired>>,
          yes: seq<Fired>) returns (chapters': seq<seq<Fired>>)
    requires LoopStory(start, w, self, kids, chapters) && Separate(u.states, self, kids) && |u.states| == |w.states|
    requires u.trace == w.trace + yes && u.states[self].state == 1
    requires if yes == [] then u == w && w.states[kids[1].fn.node].active
             else |yes| == 1 && Asked(yes[0], kids, true) && w.states[self].state == 0
                  && u.states[kids[1].fn.node] == Rearmed(u.states[kids[1].fn.node])
    ensures LoopStory(start, RunBody(u, o, self, kids).w, self, kids, chapters')
  {
    hide RunBody, Opened, Stalled, Past, Separate, Invoke, Round;
    StoryFacts(start, w, self, kids, chapters);
    var last := chapters[|chapters| - 1] + yes;
    assert last == if yes == [] then chapters[|chapters| - 1] else yes;
    var more := BodyChapter(u, o, self, kids, last);
    var t := RunBody(u, o, self, kids).w;
    assert t.trace == w.trace + (yes + more);
    assert chapters[|chapters| - 1] + (yes + more) == last + more;
    PastGoesOn(start, w, t, kids, chapters, yes + more);
    chapters' := if Completes(Invoke(u, o, kids[1].fn).code) then Closed(chapters, yes + more)
                 else Grown(chapters, yes + more);
  }

  lemma StoryFacts(start: World, w: World, self: nat, kids: seq<Node>, chapters: seq<seq<Fired>>)
    requires LoopStory(start, w, self, kids, chapters)
    ensures Loop(kids) && chapters != [] && Separate(w.states, self, kids) && kids[1].fn.node < |w.states|
    ensures w.states[self].state == 1 && w.states[kids[1].fn.node].active ==>
              |chapters[|chapters| - 1]| >= 3 && Asked(chapters[|chapters| - 1][0], kids, true)
  {}

  /** One tick: from a story to a story; the loop ends exactly when the predicate was asked and said no. */
  lemma LoopTick(start: World, w: World, o: Oracle, self: nat, kids: seq<Node>, chapters: seq<seq<Fired>>)
    returns (chapters': seq<seq<Fired>>)
    requires LoopStory(start, w, self, kids, chapters)
    ensures var out := WhileTick(w, o, self, kids);
      && LoopStory(start, out.w, self, kids, chapters')
      && (out.code == Code(Pipe, Disable) <==> Refused(w, out.w, kids))
  {
    hide RunBody, Ticking, Ending, Concat;
    OwnId(w.states, self, kids, 0);
    OwnId(w.states, self, kids, 1);
    var last := chapters[|chapters| - 1];
    if w.states[self].state == 0 {
      var asked := Fire(w, o, kids[0].fn, EvTick);
      var f := Fired(kids[0].fn, EvTick, asked.code);
      ChapterCloses(chapters, [f]);
      assert last + [f] == [f];
      if asked.code == Code(Pipe, Continue) {
        var u := SetState(Rearm(asked.w, kids, 1), self, 1);
        chapters' := BodyStory(start, w, u, o, self, kids, chapters, [f]);
        AnswersHalt(u, o, self, kids);
        TwoCalls(w, u, o, self, kids, f);
      } else {
        chapters' := Closed(chapters, [f]);
      }
    } else if w.states[kids[1].fn.node].active {
      chapters' := BodyStory(start, w, w, o, self, kids, chapters, []);
      AnswersHalt(w, o, self, kids);
      BodyCallsFirst(w, o, self, kids);
    } else {
      chapters' := chapters;
      StalledTick(w, o, self, kids);
    }
  }

  /** The tick made one call: the predicate, which said no. */
  predicate Refused(w: World, t: World, kids: seq<Node>) {
    |t.trace| == |w.trace| + 1 && t.trace[..|w.trace|] == w.trace && Asked(t.trace[|w.trace|], kids, false)
  }

  /** The body's tick never ends the loop. */
  lemma AnswersHalt(w: World, o: Oracle, self: nat, kids: seq<Node>)
    requires Separate(w.states, self, kids) && Loop(kids)
    ensures RunBody(w, o, self, kids).code != Code(Pipe, Disable)
  {}

  /** What the loop adds to the calls of a dispatch is at most a TERMINATE. */
  lemma BodyCalls(w: World, o: Oracle, self: nat, kids: seq<Node>)
    requires Separate(w.states, self, kids) && Loop(kids) && kids[1].fn.node < |w.states|
    ensures var a, b := DispatchMain(w, o, kids[1].fn).w.trace, RunBody(w, o, self, kids).w.trace;
      && |a| <= |b| && b[..|a|] == a && forall i :: |a| <= i < |b| ==> b[i].ev == EvTerm
  {
    hide DispatchMain, Separate;
    var out := DispatchMain(w, o, kids[1].fn);
    assert Invoke(w, o, kids[1].fn) == out;
    var told := TerminateChild(out.w, o, kids[1].fn);
    assert told.trace[..|out.w.trace|] == out.w.trace;
  }

  /** A tick of an active body begins with a call of the body. */
  lemma BodyCallsFirst(w: World, o: Oracle, self: nat, kids: seq<Node>)
    requires Separate(w.states, self, kids) && Loop(kids)
    requires kids[1].fn.node < |w.states| && w.states[kids[1].fn.node].active
    ensures var t := RunBody(w, o, self, kids).w;
      |t.trace| > |w.trace| && t.trace[..|w.trace|] == w.trace && t.trace[|w.trace|].fn == kids[1].fn
  {
    hide DispatchMain, RunBody, Separate;
    var at := OneTick(w, o, kids[1].fn);
    BodyCalls(w, o, self, kids);
    var a, b := DispatchMain(w, o, kids[1].fn).w.trace, RunBody(w, o, self, kids).w.trace;
    assert b[..|w.trace|] == b[..|a|][..|w.trace|] && b[|w.trace|] == b[..|a|][|w.trace|];
  }

  lemma TwoCalls(w: World, u: World, o: Oracle, self: nat, kids: seq<Node>, f: Fired)
    requires Separate(u.states, self, kids) && Loop(kids) && u.trace == w.trace + [f]
    requires kids[1].fn.node < |u.states| && u.states[kids[1].fn.node].active
    ensures |RunBody(u, o, self, kids).w.trace| > |w.trace| + 1
  {
    BodyCallsFirst(u, o, self, kids);
  }

  /** A tick with an inactive body calls nothing and changes nothing. */
  lemma StalledTick(w: World, o: Oracle, self: nat, kids: seq<Node>)
    requires Separate(w.states, self, kids) && Loop(kids) && w.states[self].state == 1
    requires kids[1].fn.node < |w.states| && !w.states[kids[1].fn.node].active
    ensures WhileTick(w, o, self, kids) == Outcome(w, Code(Function, Halt))
  {}

  // ---- over whole runs -------------------------------------------------------

  lemma LoopStarts(w: World, o: Oracle, self: nat, kids: seq<Node>)
    requires Separate(w.states, self, kids) && Loop(kids)
    requires kids[1].fn.node < |w.states| && !w.states[kids[1].fn.node].inited
    ensures LoopStory(w, WhileRun(w, o, self, kids, 0), self, kids, [[]])
  {
    OwnId(w.states, self, kids, 1);
    assert Concat([[]]) == Concat([]) + [];
  }

  /**
   After any number of ticks the calls made are rounds and refusals, one after the other: each round is the
   predicate saying yes and the body going from INIT to completion and TERMINATE. Only the last round may be
   open, and the body is initialized only then. A tick returns DISABLE if and only if it asked the
   predicate, which said no.
   */
  lemma {:induction false} LoopInRounds(w: World, o: Oracle, self: nat, kids: seq<Node>, n: nat)
    returns (chapters: seq<seq<Fired>>)
    requires Separate(w.states, self, kids) && Loop(kids)
    requires kids[1].fn.node < |w.states| && !w.states[kids[1].fn.node].inited
    ensures LoopStory(w, WhileRun(w, o, self, kids, n), self, kids, chapters)
    ensures WhileCode(w, o, self, kids, n) == Code(Pipe, Disable) <==>
            Refused(WhileRun(w, o, self, kids, n), WhileRun(w, o, self, kids, n + 1), kids)
  {
    hide WhileTick, LoopStory, Separate, Refused;
    if n == 0 {
      chapters := [[]];
      LoopStarts(w, o, self, kids);
    } else {
      var before := LoopInRounds(w, o, self, kids, n - 1);
      chapters := LoopTick(w, WhileRun(w, o, self, kids, n - 1), o, self, kids, before);
    }
    var _ := LoopTick(w, WhileRun(w, o, self, kids, n), o, self, kids, chapters);
  }

  // ---- what a tick returns ---------------------------------------------------

  /** What the loop makes of the body's answer. */
  predicate Rendered(c: Code, code: Code) {
    && (Completes(c) ==> code == Code(Pipe, Halt)) && (c.level.Pipe? && !Completes(c) ==> code == Code(Function, Halt))
    && (c == Code(App, Disable) ==> code == Code(App, Continue))
    && (!c.level.Pipe? && c != Code(App, Disable) ==> code == c)
  }

  /** Of the calls from `from` on, the one at `at` is the body's only tick, and `code` is made of its answer. */
  ghost predicate Returned(ts: seq<Fired>, from: nat, kids: seq<Node>, at: nat, code: Code) {
    && |kids| > 1 && kids[1].Call? && from <= at < |ts| && Is(ts[at], kids[1].fn, EvTick) && Rendered(ts[at].code, code)
    && forall i :: from <= i < |ts| && i != at && ts[i].fn == kids[1].fn ==> ts[i].ev != EvTick
  }

  lemma BodyAnswers(w: World, o: Oracle, self: nat, kids: seq<Node>) returns (at: nat)
    requires Separate(w.states, self, kids) && Loop(kids)
    requires kids[1].fn.node < |w.states| && w.states[kids[1].fn.node].active
    ensures var t := RunBody(w, o, self, kids);
      && |w.trace| < |t.w.trace| && t.w.trace[..|w.trace|] == w.trace && Returned(t.w.trace, |w.trace|, kids, at, t.code)
      && (Completes(t.w.trace[at].code) ==> AllNew(t.w.states, CallIds(kids[1])))
  {
    BodyNews(w, o, self, kids);
    hide DispatchMain, Separate, TerminateChild, Rearm, AllNew;
    at := OneTick(w, o, kids[1].fn);
    BodyCalls(w, o, self, kids);
    var out := DispatchMain(w, o, kids[1].fn);
    assert Invoke(w, o, kids[1].fn) == out;
    var a, b := out.w.trace, RunBody(w, o, self, kids).w.trace;
    assert forall i :: 0 <= i < |a| ==> b[i] == b[..|a|][i];
    assert b[..|w.trace|] == b[..|a|][..|w.trace|];
  }

  /** A body that completed is as new, with everything in it. */
  lemma BodyNews(w: World, o: Oracle, self: nat, kids: seq<Node>)
    requires Separate(w.states, self, kids) && Loop(kids) && kids[1].fn.node < |w.states|
    ensures Completes(DispatchMain(w, o, kids[1].fn).code) ==> AllNew(RunBody(w, o, self, kids).w.states, CallIds(kids[1]))
  {
    hide DispatchMain, TerminateChild;
    OtherId(w.states, self, kids);
    var out := DispatchMain(w, o, kids[1].fn);
    assert Invoke(w, o, kids[1].fn) == out;
    SameSeparate(w.states, TerminateChild(out.w, o, kids[1].fn).states, self, kids);
  }

  /**
   What every tick returns. One that calls nothing returns FUNCTION_HALT, and one whose predicate said no
   DISABLE. Any other has exactly one tick of the body, and PIPELINE_HALT if that completed it; a pipeline code that
   does not complete it becomes FUNCTION_HALT, SE_DISABLE becomes SE_CONTINUE, and every other code is passed on.
   A completed body is left as new, with everything nested in it.
   */
  lemma LoopAnswers(w: World, o: Oracle, self: nat, kids: seq<Node>, n: nat) returns (at: nat)
    requires Separate(w.states, self, kids) && Loop(kids)
    requires kids[1].fn.node < |w.states| && !w.states[kids[1].fn.node].inited
    ensures var s, t := WhileRun(w, o, self, kids, n), WhileRun(w, o, self, kids, n + 1);
      var code := WhileCode(w, o, self, kids, n);
      && |s.trace| <= |t.trace| && t.trace[..|s.trace|] == s.trace
      && if |t.trace| == |s.trace| then code == Code(Function, Halt)
         else if Refused(s, t, kids) then code == Code(Pipe, Disable)
         else Returned(t.trace, |s.trace|, kids, at, code)
              && (Completes(t.trace[at].code) ==> AllNew(t.states, CallIds(kids[1])))
  {
    hide LoopStory, Separate, Refused, Returned, WhileTick, AllNew, Completes;
    var chapters := LoopInRounds(w, o, self, kids, n);
    at := TickAnswers(w, WhileRun(w, o, self, kids, n), o, self, kids, chapters);
    StorySeparate(w, WhileRun(w, o, self, kids, n), self, kids, chapters);
  }

  lemma StorySeparate(start: World, w: World, self: nat, kids: seq<Node>, chapters: seq<seq<Fired>>)
    requires LoopStory(start, w, self, kids, chapters)
    ensures Separate(w.states, self, kids) && Loop(kids) && kids[1].fn.node < |w.states|
    ensures w.states[self].state <= 1
  {}

  lemma TickAnswers(start: World, w: World, o: Oracle, self: nat, kids: seq<Node>, chapters: seq<seq<Fired>>)
    returns (at: nat)
    requires LoopStory(start, w, self, kids, chapters)
    ensures Separate(w.states, self, kids) && Loop(kids)
    ensures var t := WhileTick(w, o, self, kids);
      && |w.trace| <= |t.w.trace| && t.w.trace[..|w.trace|] == w.trace
      && if |t.w.trace| == |w.trace| then t.code == Code(Function, Halt)
         else if Refused(w, t.w, kids) then t.code == Code(Pipe, Disable)
         else Returned(t.w.trace, |w.trace|, kids, at, t.code)
              && (Completes(t.w.trace[at].code) ==> AllNew(t.w.states, CallIds(kids[1])))
  {
    hide RunBody, LoopStory, Returned, Rearm, AllNew;
    at := 0;
    StorySeparate(start, w, self, kids, chapters);
    OwnId(w.states, self, kids, 0);
    if w.states[self].state == 0 {
      at := AskAnswers(w, o, self, kids);
    } else if w.states[kids[1].fn.node].active {
      at := BodyAnswers(w, o, self, kids);
      BodyCallsFirst(w, o, self, kids);
    } else {
      StalledTick(w, o, self, kids);
    }
  }

  lemma AskAnswers(w: World, o: Oracle, self: nat, kids: seq<Node>) returns (at: nat)
    requires Separate(w.states, self, kids) && Loop(kids) && w.states[self].state == 0
    ensures var t := WhileTick(w, o, self, kids);
      && |w.trace| < |t.w.trace| && t.w.trace[..|w.trace|] == w.trace
      && if Refused(w, t.w, kids) then t.code == Code(Pipe, Disable)
         else Returned(t.w.trace, |w.trace|, kids, at, t.code)
              && (Completes(t.w.trace[at].code) ==> AllNew(t.w.states, CallIds(kids[1])))
  {
    hide AllNew, RunBody, Returned, Separate, Rearm, ResetNodes;
    at := 0;
    OwnId(w.states, self, kids, 0);
    OwnId(w.states, self, kids, 1);
    var asked := Fire(w, o, kids[0].fn, EvTick);
    if asked.code == Code(Pipe, Continue) {
      SameSelf(w, Rearm(asked.w, kids, 1), self, kids, 1);
      Ready(asked.w, kids);
      var u := SetState(Rearm(asked.w, kids, 1), self, 1);
      at := BodyAnswers(u, o, self, kids);
      var f, ts := u.trace[|w.trace|], RunBody(u, o, self, kids).w.trace;
      Shift(w.trace, f, u.trace, ts);
      ReturnedAfter(ts, |w.trace|, kids, at, RunBody(u, o, self, kids).code);
    }
  }

  lemma Ready(w: World, kids: seq<Node>)
    requires Loop(kids) && kids[1].fn.node < |w.states|
    ensures var t := Rearm(w, kids, 1); t.trace == w.trace && t.states[kids[1].fn.node].active
  {}

  lemma ReturnedAfter(ts: seq<Fired>, from: nat, kids: seq<Node>, at: nat, code: Code)
    requires Returned(ts, from + 1, kids, at, code) && ts[from].fn != kids[1].fn
    ensures Returned(ts, from, kids, at, code)
  {}

  lemma Shift(a: seq<Fired>, f: Fired, b: seq<Fired>, c: seq<Fired>)
    requires b == a + [f] && |b| <= |c| && c[..|b|] == b
    ensures c[..|a|] == a && c[|a|] == f
  {
    assert c[..|a|] == c[..|b|][..|a|] && c[|a|] == c[..|b|][|a|];
  }

  // ---- a body that answers SE_DISABLE ----------------------------------------

  predicate Quits(f: Fired, kids: seq<Node>) {
    |kids| > 1 && kids[1].Call? && Is(f, kids[1].fn, EvTick) && f.code == Code(App, Disable)
  }

  /** The body answered SE_DISABLE somewhere from `from` on. */
  predicate Quit(ts: seq<Fired>, from: nat, kids: seq<Node>) {
    exists i :: from <= i < |ts| && Quits(ts[i], kids)
  }

  predicate Stuck(w: World, self: nat, kids: seq<Node>)
    requires Loop(kids) && self < |w.states| && kids[1].fn.node < |w.states|
  {
    w.states[self].state == 1 && !w.states[kids[1].fn.node].active
  }

  lemma QuitSplits(a: seq<Fired>, b: seq<Fired>, from: nat, kids: seq<Node>)
    requires from <= |a| <= |b| && b[..|a|] == a
    ensures Quit(b, from, kids) <==> Quit(a, from, kids) || Quit(b, |a|, kids)
  {
    assert forall i :: 0 <= i < |a| ==> b[i] == b[..|a|][i];
  }

  /** The loop is stuck after the body's tick exactly when the answer was SE_DISABLE. */
  lemma BodySticks(w: World, o: Oracle, self: nat, kids: seq<Node>)
    requires Separate(w.states, self, kids) && Loop(kids) && w.states[self].state == 1
    requires kids[1].fn.node < |w.states| && w.states[kids[1].fn.node].active
    ensures var t := RunBody(w, o, self, kids).w;
      Stuck(t, self, kids) <==> DispatchMain(w, o, kids[1].fn).code == Code(App, Disable)
  {
    OwnId(w.states, self, kids, 1);
    var at := OneTick(w, o, kids[1].fn);
    DispatchFrame(w, o, kids[1].fn, self);
    hide DispatchMain, Separate;
    var out := DispatchMain(w, o, kids[1].fn);
    assert Invoke(w, o, kids[1].fn) == out;
    if Completes(out.code) {
      var t := TerminateChild(out.w, o, kids[1].fn);
      assert Rearm(t, kids, 1).states[self] == t.states[self] by { OtherId(w.states, self, kids); }
    }
  }

  lemma OtherId(states: seq<NodeState>, self: nat, kids: seq<Node>)
    requires Separate(states, self, kids) && Loop(kids)
    ensures self !in CallIds(kids[1])
  {}

  lemma DispatchFrame(w: World, o: Oracle, fn: Fn, i: nat)
    requires fn.node < |w.states| && i < |w.states| && i != fn.node
    ensures DispatchMain(w, o, fn).w.states[i] == w.states[i]
  {}

  /** A tick of an active body calls it, and one of the calls is an SE_DISABLE exactly when the loop is then stuck. */
  lemma BodyQuits(w: World, o: Oracle, self: nat, kids: seq<Node>)
    requires Separate(w.states, self, kids) && Loop(kids) && w.states[self].state == 1
    requires kids[1].fn.node < |w.states| && w.states[kids[1].fn.node].active
    ensures var t := RunBody(w, o, self, kids).w;
      && |t.trace| > |w.trace| && t.trace[..|w.trace|] == w.trace
      && (Stuck(t, self, kids) <==> Quit(t.trace, |w.trace|, kids))
  {
    hide DispatchMain, RunBody, Separate, Stuck;
    var at := OneTick(w, o, kids[1].fn);
    BodyCalls(w, o, self, kids);
    BodySticks(w, o, self, kids);
    var a, b := DispatchMain(w, o, kids[1].fn).w.trace, RunBody(w, o, self, kids).w.trace;
    assert forall i :: 0 <= i < |a| ==> b[i] == b[..|a|][i];
    assert b[..|w.trace|] == b[..|a|][..|w.trace|];
    assert Quits(b[at], kids) <==> DispatchMain(w, o, kids[1].fn).code == Code(App, Disable);
  }

  lemma AskSticks(w: World, o: Oracle, self: nat, kids: seq<Node>)
    requires Separate(w.states, self, kids) && Loop(kids) && w.states[self].state == 0
    requires kids[1].fn.node < |w.states|
    ensures var t := WhileTick(w, o, self, kids).w;
      && |t.trace| > |w.trace| && t.trace[..|w.trace|] == w.trace && t.states[self].state <= 1
      && (Stuck(t, self, kids) <==> Quit(t.trace, |w.trace|, kids))
  {
    hide RunBody, Quit, Rearm, Separate;
    OwnId(w.states, self, kids, 0);
    var t := WhileTick(w, o, self, kids).w;
    var asked := Fire(w, o, kids[0].fn, EvTick);
    if asked.code == Code(Pipe, Continue) {
      SameSelf(w, Rearm(asked.w, kids, 1), self, kids, 1);
      Ready(asked.w, kids);
      OwnId(w.states, self, kids, 1);
      var u := SetState(Rearm(asked.w, kids, 1), self, 1);
      BodyQuits(u, o, self, kids);
      RunsState(u, o, self, kids);
      Shift(w.trace, u.trace[|w.trace|], u.trace, t.trace);
      QuitSplits(u.trace, t.trace, |w.trace|, kids);
      NoQuit(u.trace, |w.trace|, kids);
    } else {
      SameSelf(w, t, self, kids, 0);
      NoQuit(t.trace, |w.trace|, kids);
    }
  }

  lemma TickSticks(w: World, o: Oracle, self: nat, kids: seq<Node>)
    requires Separate(w.states, self, kids) && Loop(kids) && w.states[self].state <= 1
    requires kids[1].fn.node < |w.states|
    ensures var t := WhileTick(w, o, self, kids).w;
      && |t.trace| >= |w.trace| && t.trace[..|w.trace|] == w.trace && t.states[self].state <= 1
      && (Stuck(w, self, kids) <==> t.trace == w.trace)
      && (Stuck(t, self, kids) <==> Stuck(w, self, kids) || Quit(t.trace, |w.trace|, kids))
  {
    hide RunBody, Quit, Rearm;
    OwnId(w.states, self, kids, 0);
    var t := WhileTick(w, o, self, kids).w;
    if w.states[self].state == 0 {
      AskSticks(w, o, self, kids);
    } else if Stuck(w, self, kids) {
      StalledTick(w, o, self, kids);
      NoQuit(t.trace, |w.trace|, kids);
    } else {
      BodyQuits(w, o, self, kids);
      RunsState(w, o, self, kids);
    }
  }

  /** Calls of the predicate are no answers of the body. */
  lemma NoQuit(ts: seq<Fired>, from: nat, kids: seq<Node>)
    requires Loop(kids) && forall i :: from <= i < |ts| ==> ts[i].fn == kids[0].fn
    ensures !Quit(ts, from, kids)
  {}

  lemma NoCallsYet(ts: seq<Fired>, kids: seq<Node>)
    ensures !Quit(ts, |ts|, kids)
  {}

  lemma RunsState(w: World, o: Oracle, self: nat, kids: seq<Node>)
    requires Separate(w.states, self, kids) && Loop(kids) && w.states[self].state <= 1
    ensures RunBody(w, o, self, kids).w.states[self].state <= 1
  {
    OwnId(w.states, self, kids, 1);
  }

  lemma {:induction false} StuckIffQuit(w: World, o: Oracle, self: nat, kids: seq<Node>, n: nat)
    requires Separate(w.states, self, kids) && Loop(kids) && kids[1].fn.node < |w.states|
    ensures var t := WhileRun(w, o, self, kids, n);
      && |t.trace| >= |w.trace| && t.states[self].state <= 1 && Separate(t.states, self, kids)
      && (Stuck(t, self, kids) <==> Quit(t.trace, |w.trace|, kids))
  {
    hide WhileTick, Quit;
    NoCallsYet(w.trace, kids);
    if n > 0 {
      var s, t := WhileRun(w, o, self, kids, n - 1), WhileRun(w, o, self, kids, n);
      StuckIffQuit(w, o, self, kids, n - 1);
      TickSticks(s, o, self, kids);
      QuitSplits(s.trace, t.trace, |w.trace|, kids);
    }
  }

  /**
   The loop stops calling anything if and only if its body once answered SE_DISABLE: the body is off, but
   the loop waits for it, and every later tick returns FUNCTION_HALT.
   */
  lemma LoopStuckIff(w: World, o: Oracle, self: nat, kids: seq<Node>, n: nat)
    requires Separate(w.states, self, kids) && Loop(kids) && kids[1].fn.node < |w.states|
    ensures var t, u := WhileRun(w, o, self, kids, n), WhileRun(w, o, self, kids, n + 1);
      && (u.trace == t.trace <==> Quit(t.trace, |w.trace|, kids))
      && (u.trace == t.trace ==> u == t && WhileCode(w, o, self, kids, n) == Code(Function, Halt))
  {
    var t := WhileRun(w, o, self, kids, n);
    StuckIffQuit(w, o, self, kids, n);
    TickSticks(t, o, self, kids);
    if Stuck(t, self, kids) { StalledTick(t, o, self, kids); }
  }

  /** And it stays so. */
  lemma {:induction false} StuckForever(w: World, o: Oracle, self: nat, kids: seq<Node>, n: nat, m: nat)
    requires Separate(w.states, self, kids) && Loop(kids) && kids[1].fn.node < |w.states| && n <= m
    requires Quit(WhileRun(w, o, self, kids, n).trace, |w.trace|, kids)
    ensures WhileRun(w, o, self, kids, m) == WhileRun(w, o, self, kids, n)
    ensures WhileCode(w, o, self, kids, m) == Code(Function, Halt)
    decreases m
  {
    hide WhileTick, Quit, Separate, Loop;
    if m > n {
      StuckForever(w, o, self, kids, n, m - 1);
      LoopStuckIff(w, o, self, kids, m - 1);
    }
    LoopStuckIff(w, o, self, kids, m);
  }
}
