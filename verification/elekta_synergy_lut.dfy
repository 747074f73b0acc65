/** The lookup table of the Elekta Synergy filter: raw detector values to
    the logarithm of the maximum over the value. `log` is a parameter; the
    model does not fix its values. */
module ElektaSynergyLut {
  import opened Sequences

  /** The range of the input pixel type. */
  datatype PixelRange = PixelRange(min: int, max: int)

  /** One entry per representable input value. */
  function LutSize(t: PixelRange): (n: nat)
    requires t.min <= t.max
    ensures n >= 1
    ensures t.min + n - 1 == t.max
  {
    t.max - t.min + 1
  }

  /** Entry `i` of the table: `log(size) - log(size - i)`, except that the
      first and the last entry take the value of entry 1. */
  function Entry(size: nat, i: nat, log: real -> real): (e: real)
    ensures 1 <= i && i + 1 != size ==> e == log(size as real) - log((size - i) as real)
    ensures i == 0 || i + 1 == size ==> e == log(size as real) - log((size - 1) as real)
  {
    var j := if i == 0 || i + 1 == size then 1 else i;
    log(size as real) - log((size - j) as real)
  }

  ghost predicate Increasing(log: real -> real) {
    forall x, y :: 1.0 <= x <= y ==> log(x) <= log(y)
  }

  /** The constructor's fill: the first entry, then every entry from 1 on,
      then the last entry again. `writes` lists the indices written, in
      order. */
  method BuildLut(t: PixelRange, log: real -> real) returns (lut: seq<real>, writes: seq<nat>)
    requires t.min <= t.max
    ensures |lut| == LutSize(t)
    ensures forall i :: 0 <= i < |lut| ==> lut[i] == Entry(|lut|, i, log)
    ensures forall i :: 1 <= i <= |lut| - 2 ==> lut[i] == log(|lut| as real) - log((|lut| - i) as real)
    ensures lut[0] == lut[|lut| - 1] == log(|lut| as real) - log((|lut| - 1) as real)
    ensures forall i: int ::
              multiset(writes)[i] == if i == |lut| - 1 then 2 else if 0 <= i < |lut| then 1 else 0
  {
    var size := LutSize(t);
    var logRef := log(size as real);
    lut := [logRef - log((size - 1) as real)];
    writes := [0];
    var index := 1;
    while index < size
      invariant 1 <= index <= size
      invariant |lut| == index
      invariant lut[0] == logRef - log((size - 1) as real)
      invariant forall i :: 1 <= i < index ==> lut[i] == logRef - log((size - i) as real)
      invariant writes == Iota(index)
    {
      IotaSnoc(index);
      lut := lut + [logRef - log((size - index) as real)];
      writes := writes + [index];
      index := index + 1;
    }
    lut := lut[size - 1 := logRef - log((size - 1) as real)];
    writes := writes + [size - 1];
    forall i: int
      ensures multiset(writes)[i] == if i == size - 1 then 2 else if 0 <= i < size then 1 else 0
    {
      IotaCounts(size, i);
    }
  }

  /** With an increasing `log`, the table is non-decreasing up to its
      second-to-last entry and never negative. */
  lemma EntriesOrdered(size: nat, log: real -> real)
    requires size >= 2
    requires Increasing(log)
    ensures forall i, j :: 0 <= i <= j <= size - 2 ==> Entry(size, i, log) <= Entry(size, j, log)
    ensures forall i :: 0 <= i < size ==> Entry(size, i, log) >= 0.0
  {
    forall i, j | 0 <= i <= j <= size - 2
      ensures Entry(size, i, log) <= Entry(size, j, log)
    {
      var i' := if i == 0 then 1 else i;
      var j' := if j == 0 then 1 else j;
      assert 1.0 <= (size - j') as real <= (size - i') as real;
    }
    forall i | 0 <= i < size
      ensures Entry(size, i, log) >= 0.0
    {
      var i' := if i == 0 || i + 1 == size then 1 else i;
      assert 1.0 <= (size - i') as real <= size as real;
    }
  }
}
