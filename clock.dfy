/**
 * Frame time. Every `Update` receives the frame's `Time.deltaTime` as a parameter `dt`;
 * a run of frames is the sequence of their `dt`s.
 */
module Clock {

  /** Total time of a run of frames. */
  function Elapsed(dts: seq<real>): real {
    if |dts| == 0 then 0.0 else Elapsed(dts[..|dts| - 1]) + dts[|dts| - 1]
  }

  predicate NonNegative(dts: seq<real>) {
    forall i :: 0 <= i < |dts| ==> 0.0 <= dts[i]
  }

  lemma {:induction false} ElapsedNonNegative(dts: seq<real>)
    requires NonNegative(dts)
    ensures 0.0 <= Elapsed(dts)
  {
    if |dts| > 0 {
      ElapsedNonNegative(dts[..|dts| - 1]);
    }
  }
}
