/**
 * Runs of calls on a machine, read off the calls and their replies alone: which values the successful calls added, and
 * which call the value that stands at the end comes from. The three transaction builders are described with these.
 */
module History {
  import opened Wrappers

  /** A sequence of calls on a machine: where it ends, and the reply of each call. */
  function RunAll<S, Op, R>(perform: (S, Op) -> (S, R), s: S, ops: seq<Op>): (r: (S, seq<R>))
    ensures |r.1| == |ops|
  {
    if ops == [] then (s, [])
    else
      var (before, replies) := RunAll(perform, s, ops[..|ops| - 1]);
      var (after, reply) := perform(before, ops[|ops| - 1]);
      (after, replies + [reply])
  }

  lemma RunOneMore<S, Op, R>(perform: (S, Op) -> (S, R), s: S, ops: seq<Op>, op: Op)
    ensures var (before, replies) := RunAll(perform, s, ops);
      var (after, reply) := perform(before, op);
      RunAll(perform, s, ops + [op]) == (after, replies + [reply])
  {
    assert (ops + [op])[..|ops|] == ops;
  }

  /** The values that the successful calls added, in the order of the calls. */
  function Added<Op, R, E, T>(ops: seq<Op>, replies: seq<Result<R, E>>, adds: Op -> Option<T>): (r: seq<T>)
    requires |ops| == |replies|
    ensures |r| <= |ops|
  {
    if ops == [] then []
    else
      var n := |ops| - 1;
      var before := Added(ops[..n], replies[..n], adds);
      if replies[n].Ok? && adds(ops[n]).Some? then before + [adds(ops[n]).value] else before
  }

  lemma AddedOneMore<Op, R, E, T>(
      ops: seq<Op>, replies: seq<Result<R, E>>, op: Op, reply: Result<R, E>, adds: Op -> Option<T>)
    requires |ops| == |replies|
    ensures Added(ops + [op], replies + [reply], adds)
         == Added(ops, replies, adds) + if reply.Ok? && adds(op).Some? then [adds(op).value] else []
  {
    assert (ops + [op])[..|ops|] == ops && (replies + [reply])[..|ops|] == replies;
  }

  /** Call `t` succeeded in giving a value, and no later call succeeded in ending it. */
  ghost predicate StandsAt<Op, R, E>(
      ops: seq<Op>, replies: seq<Result<R, E>>, gives: Op -> bool, ends: Op -> bool, t: nat)
    requires |ops| == |replies|
  {
    && t < |ops| && replies[t].Ok? && gives(ops[t])
    && forall u :: t < u < |ops| && replies[u].Ok? ==> !ends(ops[u])
  }

  lemma StandsAfterOneMore<Op, R, E>(
      ops: seq<Op>, replies: seq<Result<R, E>>, op: Op, reply: Result<R, E>,
      gives: Op -> bool, ends: Op -> bool, t: nat)
    requires |ops| == |replies|
    ensures StandsAt(ops + [op], replies + [reply], gives, ends, t) <==>
      || (t < |ops| && StandsAt(ops, replies, gives, ends, t) && (reply.Ok? ==> !ends(op)))
      || (t == |ops| && reply.Ok? && gives(op))
  {
    var ops', replies' := ops + [op], replies + [reply];
    assert ops'[|ops|] == op && replies'[|ops|] == reply;
    assert forall u :: 0 <= u < |ops| ==> ops'[u] == ops[u] && replies'[u] == replies[u];
  }
}
