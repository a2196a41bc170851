/** The size of the compute dispatch: one thread group per full tile of
    `xGroupSize` by `yGroupSize` pixels, with the division truncating. */
module Dispatch {

  /** The three group counts handed to DispatchCompute. */
  datatype ThreadGroups = ThreadGroups(x: nat, y: nat, z: nat)

  /** `(_width / (int)_xGroupSize, _height / (int)_yGroupSize, 1)`: the number of
      whole groups that fit in each direction, never more. */
  function DispatchSize(width: nat, height: nat, xGroupSize: nat, yGroupSize: nat): (g: ThreadGroups)
    requires xGroupSize > 0 && yGroupSize > 0
    ensures g.z == 1
    ensures xGroupSize * g.x <= width < xGroupSize * (g.x + 1)
    ensures yGroupSize * g.y <= height < yGroupSize * (g.y + 1)
  {
    var columns := width / xGroupSize;
    var rows := height / yGroupSize;
    WholeGroups(width, xGroupSize);
    WholeGroups(height, yGroupSize);
    ThreadGroups(columns, rows, 1)
  }

  lemma WholeGroups(extent: nat, groupSize: nat)
    requires groupSize > 0
    ensures groupSize * (extent / groupSize) <= extent < groupSize * (extent / groupSize + 1)
  {
    assert extent == groupSize * (extent / groupSize) + extent % groupSize;
    assert groupSize * (extent / groupSize + 1) == groupSize * (extent / groupSize) + groupSize;
  }

  /** Pixels along one axis that no dispatched group covers. */
  function Uncovered(extent: nat, groupSize: nat): nat
    requires groupSize > 0
  {
    WholeGroups(extent, groupSize);
    extent - groupSize * (extent / groupSize)
  }

  /** The strip left undispatched is narrower than one group, and it is empty
      exactly when the extent is a multiple of the group size. */
  lemma UncoveredStrip(extent: nat, groupSize: nat)
    requires groupSize > 0
    ensures Uncovered(extent, groupSize) < groupSize
    ensures Uncovered(extent, groupSize) == extent % groupSize
    ensures Uncovered(extent, groupSize) == 0 <==> extent % groupSize == 0
  {
    WholeGroups(extent, groupSize);
    assert extent == groupSize * (extent / groupSize) + extent % groupSize;
  }

  /** The conditions on `DispatchSize` pin the counts down: only one count fits
      between `groupSize * count` and `groupSize * (count + 1)`. */
  lemma GroupCountUnique(extent: nat, groupSize: nat, q: nat, q': nat)
    requires groupSize > 0
    requires groupSize * q <= extent < groupSize * (q + 1)
    requires groupSize * q' <= extent < groupSize * (q' + 1)
    ensures q == q'
  {
    if q < q' {
      MulMonotone(groupSize, q + 1, q');
    } else if q' < q {
      MulMonotone(groupSize, q' + 1, q);
    }
  }

  lemma MulMonotone(a: nat, b: nat, c: nat)
    requires b <= c
    ensures a * b <= a * c
  {
    assert a * c == a * b + a * (c - b);
  }

  /** A pixel column is reached by some dispatched group (the group index of
      column `px` being `px / groupSize`) exactly when it lies left of the
      uncovered strip. */
  lemma ColumnDispatched(extent: nat, groupSize: nat, px: nat)
    requires groupSize > 0
    requires px < extent
    ensures px / groupSize < extent / groupSize <==> px < extent - Uncovered(extent, groupSize)
  {
    var q := extent / groupSize;
    WholeGroups(extent, groupSize);
    WholeGroups(px, groupSize);
    var k := px / groupSize;
    if k < q {
      MulMonotone(groupSize, k + 1, q);
    } else {
      MulMonotone(groupSize, q, k);
    }
  }

  /** The bounds of `DispatchSize` characterise it: any group counts that meet
      them are the truncating quotients. */
  lemma DispatchSizeUnique(width: nat, height: nat, xGroupSize: nat, yGroupSize: nat, g: ThreadGroups)
    requires xGroupSize > 0 && yGroupSize > 0
    requires g.z == 1
    requires xGroupSize * g.x <= width < xGroupSize * (g.x + 1)
    requires yGroupSize * g.y <= height < yGroupSize * (g.y + 1)
    ensures g == DispatchSize(width, height, xGroupSize, yGroupSize)
  {
    var d := DispatchSize(width, height, xGroupSize, yGroupSize);
    GroupCountUnique(width, xGroupSize, g.x, d.x);
    GroupCountUnique(height, yGroupSize, g.y, d.y);
  }
}
