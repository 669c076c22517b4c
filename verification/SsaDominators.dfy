/** Reachability, reverse post-order and immediate dominators over an SSA
    function's control-flow graph. */
module SsaDominators {
  import opened SsaModel

  // ----- Reachability -----

  /** A set that holds the entry and is closed under edges holds every reachable block. */
  lemma {:induction false} ClosedHoldsPath(f: SsaFunction, s: set<BlockId>, p: seq<BlockId>)
    requires f.entry in s && forall u, v :: u in s && Edge(f, u, v) ==> v in s
    requires IsPath(f, p)
    ensures p[|p| - 1] in s
    decreases |p|
  {
    if |p| > 1 {
      var n := |p| - 1;
      PathPrefix(f, p, n - 1);
      ClosedHoldsPath(f, s, p[..n]);
      assert StepAt(f, p, n);
    }
  }

  ghost function Range(n: nat): (s: set<BlockId>)
    ensures forall b: BlockId :: b in s <==> b < n
  {
    if n == 0 then {} else Range(n - 1) + {n - 1}
  }

  ghost function Blocks(f: SsaFunction): set<BlockId> {
    Range(|f.blocks|)
  }

  method ComputeReachable(f: SsaFunction) returns (reachable: set<BlockId>)
    requires GraphOk(f)
    ensures forall b :: b in reachable <==> Reachable(f, b)
  {
    EntryReachable(f);
    reachable := {};
    var stack := [f.entry];
    while stack != []
      invariant forall b :: b in stack ==> Reachable(f, b) && b < |f.blocks|
      invariant forall b :: b in reachable ==> Reachable(f, b) && b < |f.blocks|
      invariant f.entry in reachable || f.entry in stack
      invariant forall u, v :: u in reachable && Edge(f, u, v) ==> v in reachable || v in stack
      decreases Blocks(f) - reachable, |stack|
    {
      var top := |stack| - 1;
      var b := stack[top];
      ghost var before := stack;
      stack := stack[..top];
      assert before == stack + [b];
      if b in reachable {
        continue;
      }
      ghost var seen := reachable;
      reachable := reachable + {b};
      assert b in Blocks(f) - seen && b !in Blocks(f) - reachable;
      forall v | v in f.blocks[b].succs ensures Reachable(f, v) && v < |f.blocks| {
        assert Edge(f, b, v);
        SuccReachable(f, b, v);
      }
      stack := stack + f.blocks[b].succs;
    }
    forall b | Reachable(f, b) ensures b in reachable {
      var p :| PathTo(f, p, b);
      ClosedHoldsPath(f, reachable, p);
    }
  }

  // ----- Reverse post-order -----

  ghost predicate Distinct(s: seq<BlockId>) {
    forall i, j :: 0 <= i < j < |s| ==> s[i] != s[j]
  }

  /** Some predecessor of `order[k]` comes before it. */
  ghost predicate PredBefore(f: SsaFunction, order: seq<BlockId>, k: nat)
    requires k < |order|
  {
    exists i :: 0 <= i < k && Edge(f, order[i], order[k])
  }

  /** `order` starts at the entry, has no repetition, and puts before each other
      block one of its predecessors. */
  ghost predicate Ordered(f: SsaFunction, order: seq<BlockId>) {
    && |order| > 0 && order[0] == f.entry
    && Distinct(order)
    && (forall k :: 0 < k < |order| ==> PredBefore(f, order, k))
  }

  /** What the dominator computation relies on. */
  ghost predicate IsOrder(f: SsaFunction, rpo: seq<BlockId>) {
    Ordered(f, rpo) && forall b :: b in rpo <==> Reachable(f, b)
  }

  /** Inserting a block behind one of its predecessors keeps the order. */
  lemma InsertOrdered(f: SsaFunction, order: seq<BlockId>, m: nat, v: BlockId)
    requires Ordered(f, order) && 0 < m <= |order|
    requires Edge(f, order[m - 1], v) && v !in order
    ensures Ordered(f, order[..m] + [v] + order[m..])
  {
    var order' := order[..m] + [v] + order[m..];
    forall k | 0 < k < |order'| ensures PredBefore(f, order', k) {
      if k == m {
        assert Edge(f, order'[m - 1], order'[k]);
      } else {
        var k0 := if k < m then k else k - 1;
        assert PredBefore(f, order, k0);
        var i :| 0 <= i < k0 && Edge(f, order[i], order[k0]);
        assert Edge(f, order'[if i < m then i else i + 1], order'[k]);
      }
    }
  }

  type Frame = (BlockId, nat)

  ghost predicate FrameOk(f: SsaFunction, frame: Frame) {
    frame.0 < |f.blocks| && frame.1 <= |f.blocks[frame.0].succs|
  }

  ghost predicate FramesOk(f: SsaFunction, stack: seq<Frame>) {
    forall k :: 0 <= k < |stack| ==> FrameOk(f, stack[k])
  }

  ghost function Work(f: SsaFunction, stack: seq<Frame>): nat
    requires FramesOk(f, stack)
  {
    if stack == [] then 0 else
    assert FrameOk(f, stack[|stack| - 1]);
    var (b, i) := stack[|stack| - 1];
    1 + |f.blocks[b].succs| - i + Work(f, stack[..|stack| - 1])
  }

  lemma WorkPush(f: SsaFunction, rest: seq<Frame>, b: BlockId, i: nat)
    requires FramesOk(f, rest) && FrameOk(f, (b, i))
    ensures FramesOk(f, rest + [(b, i)])
    ensures Work(f, rest + [(b, i)]) == 1 + |f.blocks[b].succs| - i + Work(f, rest)
  {
    assert (rest + [(b, i)])[..|rest|] == rest;
  }

  ghost predicate Inspected(f: SsaFunction, frame: Frame, seen: seq<BlockId>)
    requires FrameOk(f, frame)
  {
    forall i :: 0 <= i < frame.1 ==> f.blocks[frame.0].succs[i] in seen
  }

  /** The traversal's state. `order` lists every visited block: first those on the
      stack, bottom to top, then the finished ones, latest first. */
  ghost predicate DfsInv(f: SsaFunction, stack: seq<Frame>, post: seq<BlockId>, order: seq<BlockId>) {
    && Ordered(f, order)
    && |order| == |stack| + |post|
    && FramesOk(f, stack)
    && (forall k :: 0 <= k < |stack| ==> stack[k].0 == order[k] && Inspected(f, stack[k], order))
    && (forall k :: 0 <= k < |post| ==> post[k] == order[|order| - 1 - k])
    && (forall b :: b in order ==> Reachable(f, b))
    && (forall b, v :: b in post && Edge(f, b, v) ==> v in order)
  }

  lemma StartStep(f: SsaFunction)
    requires GraphOk(f)
    ensures DfsInv(f, [(f.entry, 0)], [], [f.entry])
  {
    EntryReachable(f);
  }

  /** The top frame moves past a successor that has been visited. */
  lemma AdvanceStep(f: SsaFunction, rest: seq<Frame>, b: BlockId, i: nat, post: seq<BlockId>, order: seq<BlockId>)
    requires DfsInv(f, rest + [(b, i)], post, order)
    requires FrameOk(f, (b, i)) && i < |f.blocks[b].succs| && f.blocks[b].succs[i] in order
    ensures DfsInv(f, rest + [(b, i + 1)], post, order)
  {
    var stack, stack' := rest + [(b, i)], rest + [(b, i + 1)];
    assert stack[|rest|] == (b, i);
    assert Inspected(f, stack[|rest|], order);
    assert forall k :: 0 <= k < |rest| ==> stack'[k] == stack[k];
  }

  /** A successor is discovered and pushed. */
  lemma PushStep(f: SsaFunction, rest: seq<Frame>, b: BlockId, i: nat, post: seq<BlockId>, order: seq<BlockId>)
    requires GraphOk(f) && DfsInv(f, rest + [(b, i)], post, order)
    requires FrameOk(f, (b, i)) && i < |f.blocks[b].succs| && f.blocks[b].succs[i] !in order
    ensures var v := f.blocks[b].succs[i];
            DfsInv(f, rest + [(b, i + 1)] + [(v, 0)], post, order[..|rest| + 1] + [v] + order[|rest| + 1..])
  {
    var v := f.blocks[b].succs[i];
    var stack, m := rest + [(b, i)], |rest| + 1;
    var stack', order' := rest + [(b, i + 1)] + [(v, 0)], order[..m] + [v] + order[m..];
    assert stack[|rest|] == (b, i);
    assert Inspected(f, stack[|rest|], order);
    assert Edge(f, b, v);
    InsertOrdered(f, order, m, v);
    assert order == order[..m] + order[m..];
    assert forall c :: c in order' <==> c in order || c == v;
    SuccReachable(f, b, v);
    assert forall k :: 0 <= k < |rest| ==> stack'[k] == stack[k];
    assert stack'[m - 1] == (b, i + 1) && stack'[m] == (v, 0);
  }

  /** The top frame is finished. */
  lemma FinishStep(f: SsaFunction, rest: seq<Frame>, b: BlockId, i: nat, post: seq<BlockId>, order: seq<BlockId>)
    requires DfsInv(f, rest + [(b, i)], post, order)
    requires FrameOk(f, (b, i)) && i == |f.blocks[b].succs|
    ensures DfsInv(f, rest, post + [b], order)
  {
    var stack := rest + [(b, i)];
    assert stack[|rest|] == (b, i);
    assert Inspected(f, stack[|rest|], order);
    assert forall k :: 0 <= k < |rest| ==> rest[k] == stack[k];
  }

  function Reverse(s: seq<BlockId>): (r: seq<BlockId>)
    ensures |r| == |s| && forall i :: 0 <= i < |s| ==> r[i] == s[|s| - 1 - i]
  {
    seq(|s|, i requires 0 <= i < |s| => s[|s| - 1 - i])
  }

  /** A finished traversal, reversed, is an order of the reachable blocks. */
  lemma FinishedIsOrder(f: SsaFunction, post: seq<BlockId>, order: seq<BlockId>)
    requires DfsInv(f, [], post, order)
    ensures IsOrder(f, Reverse(post))
  {
    assert Reverse(post) == order;
    var visited := set b | b in order;
    assert forall b :: b in order ==> b in post by {
      forall b | b in order ensures b in post {
        var k :| 0 <= k < |order| && order[k] == b;
        assert post[|order| - 1 - k] == b;
      }
    }
    forall b | Reachable(f, b) ensures b in order {
      var p :| PathTo(f, p, b);
      ClosedHoldsPath(f, visited, p);
    }
  }

  // ----- The recursive depth-first search -----

  /** What is visited, and the blocks finished, in order of finishing. */
  datatype Search = Search(visited: set<BlockId>, post: seq<BlockId>)

  /** Searching the successors of `b` from the `i`-th on, then finishing `b`. */
  ghost function Finish(f: SsaFunction, b: BlockId, i: nat, s: Search): (r: Search)
    requires GraphOk(f) && b < |f.blocks| && i <= |f.blocks[b].succs|
    ensures s.visited <= r.visited
    decreases Blocks(f) - s.visited, |f.blocks[b].succs| - i
  {
    if i == |f.blocks[b].succs| then s.(post := s.post + [b]) else
    var v := f.blocks[b].succs[i];
    assert Edge(f, b, v);
    if v in s.visited then Finish(f, b, i + 1, s) else
    Discovered(f, s.visited, b, v);
    var inner := Finish(f, v, 0, s.(visited := s.visited + {v}));
    assert v in inner.visited;
    FewerLeft(f, s.visited, inner.visited, v);
    Finish(f, b, i + 1, inner)
  }

  lemma FewerLeft(f: SsaFunction, before: set<BlockId>, after: set<BlockId>, v: BlockId)
    requires before <= after && v in after && v !in before && v < |f.blocks|
    ensures Blocks(f) - after < Blocks(f) - before
  {
    assert v in Blocks(f) - before;
  }

  /** The post-order of the depth-first search from the entry. */
  ghost function PostOrder(f: SsaFunction): seq<BlockId>
    requires GraphOk(f)
  {
    Finish(f, f.entry, 0, Search({f.entry}, [])).post
  }

  /** Finishing all the frames of a stack, the top one first. */
  ghost function FinishAll(f: SsaFunction, stack: seq<Frame>, s: Search): Search
    requires GraphOk(f) && FramesOk(f, stack)
    decreases |stack|
  {
    if stack == [] then s else
    assert FrameOk(f, stack[|stack| - 1]);
    var (b, i) := stack[|stack| - 1];
    FinishAll(f, stack[..|stack| - 1], Finish(f, b, i, s))
  }

  lemma FinishTop(f: SsaFunction, rest: seq<Frame>, b: BlockId, i: nat, s: Search)
    requires GraphOk(f) && FramesOk(f, rest) && FrameOk(f, (b, i))
    ensures FramesOk(f, rest + [(b, i)])
    ensures FinishAll(f, rest + [(b, i)], s) == FinishAll(f, rest, Finish(f, b, i, s))
  {
    assert (rest + [(b, i)])[..|rest|] == rest;
  }

  /** The explicit stack does what the recursion does: one step of the top frame. */
  lemma StackStep(f: SsaFunction, rest: seq<Frame>, b: BlockId, i: nat, s: Search)
    requires GraphOk(f) && FramesOk(f, rest) && FrameOk(f, (b, i))
    ensures FramesOk(f, rest + [(b, i)])
    ensures i == |f.blocks[b].succs| ==>
              FinishAll(f, rest + [(b, i)], s) == FinishAll(f, rest, s.(post := s.post + [b]))
    ensures i < |f.blocks[b].succs| && f.blocks[b].succs[i] in s.visited ==>
              FramesOk(f, rest + [(b, i + 1)]) && FinishAll(f, rest + [(b, i)], s) == FinishAll(f, rest + [(b, i + 1)], s)
    ensures i < |f.blocks[b].succs| && f.blocks[b].succs[i] !in s.visited ==>
              var v := f.blocks[b].succs[i];
              && FramesOk(f, rest + [(b, i + 1)] + [(v, 0)])
              && FinishAll(f, rest + [(b, i)], s) == FinishAll(f, rest + [(b, i + 1)] + [(v, 0)], s.(visited := s.visited + {v}))
  {
    hide FinishAll, FramesOk;
    FinishTop(f, rest, b, i, s);
    if i < |f.blocks[b].succs| {
      var v := f.blocks[b].succs[i];
      assert Edge(f, b, v);
      if v in s.visited {
        FinishTop(f, rest, b, i + 1, s);
      } else {
        var found := s.(visited := s.visited + {v});
        FinishTop(f, rest, b, i + 1, Finish(f, v, 0, found));
        FinishTop(f, rest + [(b, i + 1)], v, 0, found);
      }
    }
  }

  /** Splitting a block's discovery off the measure of the traversal. */
  lemma Discovered(f: SsaFunction, visited: set<BlockId>, u: BlockId, v: BlockId)
    requires GraphOk(f) && Edge(f, u, v) && v !in visited
    ensures Blocks(f) - (visited + {v}) < Blocks(f) - visited
  {
    assert v in Blocks(f) - visited;
  }

  lemma Members(order: seq<BlockId>, m: nat, v: BlockId)
    requires m <= |order|
    ensures forall b :: b in order[..m] + [v] + order[m..] <==> b in order || b == v
  {
    assert order == order[..m] + order[m..];
  }

  /** The loop's state: the order so far, and the recursion it is in the middle of. */
  ghost predicate Running(f: SsaFunction, stack: seq<Frame>, visited: set<BlockId>, post: seq<BlockId>, order: seq<BlockId>)
    requires GraphOk(f)
  {
    && DfsInv(f, stack, post, order)
    && (forall b :: b in visited <==> b in order)
    && FinishAll(f, stack, Search(visited, post)).post == PostOrder(f)
  }

  lemma RunStart(f: SsaFunction)
    requires GraphOk(f)
    ensures FramesOk(f, [(f.entry, 0)]) && Running(f, [(f.entry, 0)], {f.entry}, [], [f.entry])
  {
    hide Ordered, Finish, FinishAll;
    StartStep(f);
    StackStart(f);
  }

  lemma RunPush(f: SsaFunction, rest: seq<Frame>, b: BlockId, i: nat, visited: set<BlockId>, post: seq<BlockId>, order: seq<BlockId>)
      returns (order': seq<BlockId>)
    requires GraphOk(f) && FramesOk(f, rest + [(b, i)]) && Running(f, rest + [(b, i)], visited, post, order)
    requires FrameOk(f, (b, i)) && i < |f.blocks[b].succs| && f.blocks[b].succs[i] !in visited
    ensures var v := f.blocks[b].succs[i];
            && FramesOk(f, rest + [(b, i + 1)] + [(v, 0)])
            && Running(f, rest + [(b, i + 1)] + [(v, 0)], visited + {v}, post, order')
            && Blocks(f) - (visited + {v}) < Blocks(f) - visited
  {
    hide Ordered, Inspected, Finish, FinishAll, PostOrder, Reachable;
    var v := f.blocks[b].succs[i];
    assert Edge(f, b, v);
    order' := order[..|rest| + 1] + [v] + order[|rest| + 1..];
    RestOk(f, rest, b, i);
    StackStep(f, rest, b, i, Search(visited, post));
    PushStep(f, rest, b, i, post, order);
    Members(order, |rest| + 1, v);
    Discovered(f, visited, b, v);
  }

  lemma RunSkip(f: SsaFunction, rest: seq<Frame>, b: BlockId, i: nat, visited: set<BlockId>, post: seq<BlockId>, order: seq<BlockId>)
    requires GraphOk(f) && FramesOk(f, rest + [(b, i)]) && Running(f, rest + [(b, i)], visited, post, order)
    requires FrameOk(f, (b, i)) && i < |f.blocks[b].succs| && f.blocks[b].succs[i] in visited
    ensures FramesOk(f, rest + [(b, i + 1)]) && Running(f, rest + [(b, i + 1)], visited, post, order)
    ensures Work(f, rest + [(b, i + 1)]) < Work(f, rest + [(b, i)])
  {
    hide Ordered, Inspected, Finish, FinishAll, PostOrder, Reachable, GraphOk;
    RestOk(f, rest, b, i);
    StackStep(f, rest, b, i, Search(visited, post));
    AdvanceStep(f, rest, b, i, post, order);
    WorkPush(f, rest, b, i);
    WorkPush(f, rest, b, i + 1);
  }

  lemma RunFinish(f: SsaFunction, rest: seq<Frame>, b: BlockId, i: nat, visited: set<BlockId>, post: seq<BlockId>, order: seq<BlockId>)
    requires GraphOk(f) && FramesOk(f, rest + [(b, i)]) && Running(f, rest + [(b, i)], visited, post, order)
    requires FrameOk(f, (b, i)) && i == |f.blocks[b].succs|
    ensures FramesOk(f, rest) && Running(f, rest, visited, post + [b], order)
    ensures Work(f, rest) < Work(f, rest + [(b, i)])
  {
    hide Ordered, Inspected, Finish, FinishAll, PostOrder, Reachable, GraphOk;
    RestOk(f, rest, b, i);
    StackStep(f, rest, b, i, Search(visited, post));
    FinishStep(f, rest, b, i, post, order);
    WorkPush(f, rest, b, i);
  }

  lemma RestOk(f: SsaFunction, rest: seq<Frame>, b: BlockId, i: nat)
    requires FramesOk(f, rest + [(b, i)])
    ensures FramesOk(f, rest)
  {
    hide FrameOk;
    forall k | 0 <= k < |rest| ensures FrameOk(f, rest[k]) {
      assert (rest + [(b, i)])[k] == rest[k];
    }
  }

  method ReversePostOrder(f: SsaFunction) returns (rpo: seq<BlockId>)
    requires GraphOk(f)
    ensures rpo == Reverse(PostOrder(f)) && IsOrder(f, rpo)
  {
    RunStart(f);
    hide GraphOk, Running, Work, PostOrder, IsOrder;
    var post: seq<BlockId> := [];
    var stack: seq<Frame> := [(f.entry, 0)];
    var visited := {f.entry};
    ghost var order := [f.entry];
    while stack != []
      invariant FramesOk(f, stack) && Running(f, stack, visited, post, order)
      decreases Blocks(f) - visited, Work(f, stack)
    {
      var top := |stack| - 1;
      assert FrameOk(f, stack[top]);
      var (b, i) := stack[top];
      assert stack == stack[..top] + [(b, i)];
      hide FramesOk;
      stack := stack[..top];
      if i < |f.blocks[b].succs| {
        var succ := f.blocks[b].succs[i];
        if succ !in visited {
          order := RunPush(f, stack, b, i, visited, post, order);
          visited := visited + {succ};
          stack := stack + [(b, i + 1)] + [(succ, 0)];
        } else {
          RunSkip(f, stack, b, i, visited, post, order);
          stack := stack + [(b, i + 1)];
        }
      } else {
        RunFinish(f, stack, b, i, visited, post, order);
        post := post + [b];
      }
    }
    RunEnd(f, visited, post, order);
    rpo := Reverse(post);
  }

  lemma RunEnd(f: SsaFunction, visited: set<BlockId>, post: seq<BlockId>, order: seq<BlockId>)
    requires GraphOk(f) && FramesOk(f, []) && Running(f, [], visited, post, order)
    ensures post == PostOrder(f) && IsOrder(f, Reverse(post))
  {
    hide Finish, PostOrder, IsOrder;
    StackEnd(f, Search(visited, post));
    FinishedIsOrder(f, post, order);
  }

  lemma StackStart(f: SsaFunction)
    requires GraphOk(f)
    ensures FramesOk(f, [(f.entry, 0)])
    ensures FinishAll(f, [(f.entry, 0)], Search({f.entry}, [])).post == PostOrder(f)
  {
    FinishTop(f, [], f.entry, 0, Search({f.entry}, []));
    assert [] + [(f.entry, 0)] == [(f.entry, 0)];
  }

  lemma StackEnd(f: SsaFunction, s: Search)
    requires GraphOk(f)
    ensures FramesOk(f, []) && FinishAll(f, [], s) == s
  {
  }
}
