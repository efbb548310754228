/** Sequences of states one step apart, with and without the actions between them. */
module Traces {

  ghost predicate Chain<S(!new), A(!new)>(ss: seq<S>, acts: seq<A>, step: (S, A, S) -> bool) {
    |ss| == |acts| + 1 && forall i :: 0 <= i < |acts| ==> step(ss[i], acts[i], ss[i + 1])
  }

  lemma ChainExtends<S(!new), A(!new)>(ss: seq<S>, acts: seq<A>, step: (S, A, S) -> bool, a: A, s: S)
    requires Chain(ss, acts, step) && step(ss[|acts|], a, s)
    ensures Chain(ss + [s], acts + [a], step)
  {
    var ts, bs := ss + [s], acts + [a];
    forall i | 0 <= i < |bs| ensures step(ts[i], bs[i], ts[i + 1]) {
      if i < |acts| { assert ts[i] == ss[i] && ts[i + 1] == ss[i + 1] && bs[i] == acts[i]; }
    }
  }

  ghost predicate Steps<S(!new), A(!new)>(trace: seq<S>, step: (S, A, S) -> bool) {
    exists acts :: Chain(trace, acts, step)
  }

  lemma StepsExtend<S(!new), A(!new)>(trace: seq<S>, step: (S, A, S) -> bool, a: A, s: S)
    requires Steps(trace, step) && step(trace[|trace| - 1], a, s)
    ensures Steps(trace + [s], step)
  {
    var acts :| Chain(trace, acts, step);
    ChainExtends(trace, acts, step, a, s);
  }
}
