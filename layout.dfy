/** Index arithmetic for flat, row-major buffers (detector and recognizer outputs). */
module Layout {

  /** Row i of a buffer holding n rows of `stride` values ends inside the buffer. */
  lemma {:induction false} RowFits(i: nat, n: nat, stride: nat)
    requires i < n
    ensures i * stride + stride <= n * stride
    decreases n
  {
    assert (n - 1) * stride + stride == n * stride;
    if i + 1 < n {
      RowFits(i, n - 1, stride);
    }
  }

  /** Every row of a buffer holding n rows of `stride` values ends inside the buffer. */
  lemma AllRowsFit(n: nat, stride: nat)
    ensures forall i :: 0 <= i < n ==> i * stride + stride <= n * stride
  {
    forall i | 0 <= i < n ensures i * stride + stride <= n * stride {
      RowFits(i, n, stride);
    }
  }
}
