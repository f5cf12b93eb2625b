/**
 * The reader and the period check of the period verification script: `read_binary_data`
 * decodes a generated file back into samples of little-endian unsigned values, and
 * `verify_period` tells whether a column of those values repeats with a given period.
 */
module Periods {
  import opened Wrappers
  import opened Bytes
  import opened Arith
  import Generator

  /** Why reading or checking fails: a width the format table does not know, or the `IndexError` a negative period runs into. */
  datatype CheckError = UnsupportedWidth(bits: int) | NegativePeriod(period: int)

  /** `bytes_per_value` for the widths `read_binary_data` knows. */
  function ValueBytes(bits: int): (r: Option<nat>)
    ensures r.Some? ==> r.value > 0
  {
    if bits == 8 then Some(1) else if bits == 16 then Some(2) else if bits == 32 then Some(4) else None
  }

  /** The reader accepts exactly the generator's widths and reads values of the generator's size. */
  lemma ValueBytesOfWidth(bits: int)
    ensures ValueBytes(bits).Some? <==> bits == 8 || bits == 16 || bits == 32
    ensures bits == 8 || bits == 16 || bits == 32 ==> ValueBytes(bits) == Some(Generator.ByteWidth(bits))
  {
  }

  /** The values one sample read, and the bytes left in the file after them. */
  datatype Fields = Fields(values: seq<int>, rest: seq<byte>)

  /**
   * The field loop: up to `k` reads of `w` bytes, each decoded as one value, stopping at the
   * first short read (which consumes what was left).
   */
  function ReadFields(b: seq<byte>, w: nat, k: nat): (r: Fields)
    requires w > 0
    ensures |r.values| <= k
    decreases k
  {
    if k == 0 then Fields([], b)
    else if |b| < w then Fields([], [])
    else
      var f := ReadFields(b[w..], w, k - 1);
      Fields([DecodeLE(b[..w])] + f.values, f.rest)
  }

  /**
   * The sample loop: at most `count` samples; a sample shorter than `nf` values ends the
   * reading and is dropped.
   */
  function ReadSamples(b: seq<byte>, w: nat, nf: int, count: int): (r: seq<seq<int>>)
    requires w > 0
    ensures |r| <= Max(count, 0)
    ensures forall k :: 0 <= k < |r| ==> |r[k]| == nf
    decreases Max(count, 0)
  {
    if count <= 0 then []
    else
      var f := ReadFields(b, w, Max(nf, 0));
      if |f.values| == nf then [f.values] + ReadSamples(f.rest, w, nf, count - 1) else []
  }

  /** `read_binary_data` on the file's contents, None for a file that does not exist. */
  function ReadBinary(file: Option<seq<byte>>, numSamples: int, numFields: int, bits: int): (r: Result<seq<seq<int>>, CheckError>)
    ensures r.Err? <==> bits != 8 && bits != 16 && bits != 32
    ensures r.Err? ==> r.error == UnsupportedWidth(bits)
    ensures r.Ok? ==> |r.value| <= Max(numSamples, 0) && forall k :: 0 <= k < |r.value| ==> |r.value[k]| == numFields
    ensures r.Ok? && file.None? ==> r.value == []
  {
    match ValueBytes(bits)
    case None => Err(UnsupportedWidth(bits))
    case Some(w) => Ok(if file.None? then [] else ReadSamples(file.value, w, numFields, numSamples))
  }

  /** `read_binary_data`. */
  method ReadBinaryData(file: Option<seq<byte>>, numSamples: int, numFields: int, bits: int)
    returns (r: Result<seq<seq<int>>, CheckError>)
    ensures r == ReadBinary(file, numSamples, numFields, bits)
  {
    var w: nat;
    if bits == 8 {
      w := 1;
    } else if bits == 16 {
      w := 2;
    } else if bits == 32 {
      w := 4;
    } else {
      return Err(UnsupportedWidth(bits));
    }
    if file.None? {
      return Ok([]);
    }
    var bytes := file.value;
    ghost var target := ReadSamples(bytes, w, numFields, numSamples);
    var data: seq<seq<int>> := [];
    var pos := 0;
    assert bytes[pos..] == bytes;
    var sample := 0;
    while sample < numSamples
      invariant 0 <= pos <= |bytes|
      invariant data + ReadSamples(bytes[pos..], w, numFields, numSamples - sample) == target
      decreases numSamples - sample
    {
      var sampleData := ReadSample(bytes, pos, w, numFields);
      if |sampleData.values| != numFields {
        assert ReadSamples(bytes[pos..], w, numFields, numSamples - sample) == [];
        assert data + [] == data;
        return Ok(data);
      }
      ghost var later := ReadSamples(sampleData.rest, w, numFields, numSamples - sample - 1);
      assert ReadSamples(bytes[pos..], w, numFields, numSamples - sample) == [sampleData.values] + later;
      AppendAssoc(data, [sampleData.values], later);
      data := data + [sampleData.values];
      pos := |bytes| - |sampleData.rest|;
      assert bytes[pos..] == sampleData.rest;
      sample := sample + 1;
    }
    assert data + [] == data;
    return Ok(data);
  }

  /** One sample's field loop from byte `pos` on: the values read and the bytes left. */
  method ReadSample(bytes: seq<byte>, pos: nat, w: nat, numFields: int) returns (f: Fields)
    requires w > 0 && pos <= |bytes|
    ensures f == ReadFields(bytes[pos..], w, Max(numFields, 0))
    ensures |f.rest| <= |bytes| - pos && f.rest == bytes[|bytes| - |f.rest|..]
  {
    var n := if numFields < 0 then 0 else numFields;
    ghost var whole := ReadFields(bytes[pos..], w, n);
    var sampleData: seq<int> := [];
    var at := pos;
    var field := 0;
    while field < n
      invariant pos <= at <= |bytes| && 0 <= field <= n
      invariant var g := ReadFields(bytes[at..], w, n - field);
        whole == Fields(sampleData + g.values, g.rest)
    {
      var end := if at + w <= |bytes| then at + w else |bytes|;
      var raw := bytes[at..end];
      if |raw| < w {
        assert ReadFields(bytes[at..], w, n - field) == Fields([], []);
        return Fields(sampleData, []);
      }
      assert bytes[at..][..w] == raw && bytes[at..][w..] == bytes[end..];
      ghost var g := ReadFields(bytes[end..], w, n - field - 1);
      assert ReadFields(bytes[at..], w, n - field) == Fields([DecodeLE(raw)] + g.values, g.rest);
      AppendAssoc(sampleData, [DecodeLE(raw)], g.values);
      sampleData := sampleData + [DecodeLE(raw)];
      at := end;
      field := field + 1;
    }
    f := Fields(sampleData, bytes[at..]);
  }

  /** Every value is an unsigned number of `w` bytes. */
  predicate Fits(values: seq<int>, w: nat)
  {
    forall j :: 0 <= j < |values| ==> 0 <= values[j] < Power256(w)
  }

  /** Every value read fits the width. */
  lemma {:induction false} ReadFieldsBounded(b: seq<byte>, w: nat, k: nat)
    requires w > 0
    ensures Fits(ReadFields(b, w, k).values, w)
    decreases k
  {
    if k > 0 && |b| >= w {
      ReadFieldsBounded(b[w..], w, k - 1);
      var f := ReadFields(b[w..], w, k - 1);
      var v := DecodeLE(b[..w]);
      assert |b[..w]| == w && v < Power256(w);
      var r := ReadFields(b, w, k);
      assert r.values == [v] + f.values;
      assert forall j :: 1 <= j < |r.values| ==> r.values[j] == f.values[j - 1];
      assert r.values[0] == v;
    }
  }

  /** The result holds at most `num_samples` samples, each of exactly `num_fields` values that fit the width. */
  lemma {:induction false} ReadSamplesShape(b: seq<byte>, w: nat, nf: int, count: int)
    requires w > 0
    ensures var r := ReadSamples(b, w, nf, count);
      |r| <= Max(count, 0)
      && forall k :: 0 <= k < |r| ==>
           |r[k]| == nf && Fits(r[k], w)
    decreases Max(count, 0)
  {
    if count > 0 {
      var f := ReadFields(b, w, Max(nf, 0));
      if |f.values| == nf {
        ReadFieldsBounded(b, w, Max(nf, 0));
        ReadSamplesShape(f.rest, w, nf, count - 1);
        var later := ReadSamples(f.rest, w, nf, count - 1);
        var r := ReadSamples(b, w, nf, count);
        assert r == [f.values] + later;
        assert forall k :: 1 <= k < |r| ==> r[k] == later[k - 1];
      }
    }
  }

  /** `k` values are read whenever `k * w` bytes are there, and they leave the bytes after them. */
  lemma {:induction false} ReadFieldsFull(b: seq<byte>, w: nat, k: nat, m: nat)
    requires w > 0 && m == k * w && |b| >= m
    ensures |ReadFields(b, w, k).values| == k && ReadFields(b, w, k).rest == b[m..]
    decreases k
  {
    if k > 0 {
      MulStep(k, w);
      MulAtLeast(k, w);
      var rest, m' := b[w..], m - w;
      assert m' == (k - 1) * w && |rest| >= m';
      ReadFieldsFull(rest, w, k - 1, m');
      var f := ReadFields(rest, w, k - 1);
      assert ReadFields(b, w, k) == Fields([DecodeLE(b[..w])] + f.values, f.rest);
      assert rest[m'..] == b[m..];
    }
  }

  /** Fewer than `k * w` bytes give fewer than `k` values. */
  lemma {:induction false} ReadFieldsShort(b: seq<byte>, w: nat, k: nat, m: nat)
    requires w > 0 && m == k * w && |b| < m
    ensures |ReadFields(b, w, k).values| < k
    decreases k
  {
    if k > 0 && |b| >= w {
      MulStep(k, w);
      ReadFieldsShort(b[w..], w, k - 1, m - w);
    }
  }

  /**
   * Reading stops at the first incomplete sample: the samples read fill whole `m`-byte records
   * of the file, and fewer than `num_samples` are read only when no further record is complete.
   */
  lemma {:induction false} ReadSamplesStops(b: seq<byte>, w: nat, nf: int, count: int, m: nat)
    requires w > 0 && nf > 0 && m == nf * w
    ensures var r := ReadSamples(b, w, nf, count);
      |r| * m <= |b| && (|r| < Max(count, 0) ==> |b| < (|r| + 1) * m)
    decreases Max(count, 0)
  {
    if count > 0 {
      if |b| >= m {
        ReadFieldsFull(b, w, nf, m);
        ReadSamplesStops(b[m..], w, nf, count - 1, m);
        var n := |ReadSamples(b[m..], w, nf, count - 1)|;
        assert |ReadSamples(b, w, nf, count)| == n + 1;
        MulStep(n + 1, m);
        MulStep(n + 2, m);
      } else {
        ReadFieldsShort(b, w, nf, m);
      }
    }
  }

  /** The generator's file, read front to back: one sample's layout, then the rest. */
  lemma {:induction false} FlattenFront(bits: Generator.Bits, samples: seq<seq<int>>)
    requires samples != []
    ensures Generator.Flatten(bits, samples) == Generator.Layout(bits, samples[0]) + Generator.Flatten(bits, samples[1..])
    decreases |samples|
  {
    var init, last := samples[..|samples| - 1], samples[|samples| - 1];
    if |samples| == 1 {
      assert init == [] && samples[1..] == [];
    } else {
      FlattenFront(bits, init);
      var tail := samples[1..];
      assert init[0] == samples[0] && init[1..] == tail[..|tail| - 1] && tail[|tail| - 1] == last;
      AppendAssoc(Generator.Layout(bits, samples[0]), Generator.Flatten(bits, init[1..]), Generator.Layout(bits, last));
    }
  }

  /** Reading back the layout of values the width holds returns those values and the bytes after them. */
  lemma {:induction false} LayoutRead(bits: Generator.Bits, values: seq<int>, rest: seq<byte>)
    requires Generator.Unsigned(bits, values)
    ensures ReadFields(Generator.Layout(bits, values) + rest, Generator.ByteWidth(bits), |values|) == Fields(values, rest)
    decreases |values|
  {
    var w := Generator.ByteWidth(bits);
    if values != [] {
      Generator.WidthBounds(bits);
      var head := EncodeLE(values[0], w);
      var tail := Generator.Layout(bits, values[1..]);
      AppendAssoc(head, tail, rest);
      DecodeEncode(values[0], w);
      ReadFieldsCons(head, tail + rest, w, |values|);
      LayoutRead(bits, values[1..], rest);
      assert [values[0]] + values[1..] == values;
    } else {
      assert [] + rest == rest;
    }
  }

  /** A read of a whole value, then the field loop goes on with the bytes after it. */
  lemma ReadFieldsCons(head: seq<byte>, more: seq<byte>, w: nat, k: nat)
    requires w > 0 && |head| == w && k > 0
    ensures var f := ReadFields(more, w, k - 1);
      ReadFields(head + more, w, k) == Fields([DecodeLE(head)] + f.values, f.rest)
  {
    assert (head + more)[..w] == head && (head + more)[w..] == more;
  }

  /** `read_binary_data` inverts the generator's packing: reading its samples back gives them unchanged. */
  lemma {:induction false} ReadFlattened(bits: Generator.Bits, samples: seq<seq<int>>, width: nat)
    requires Generator.WellFormed(bits, samples, width)
    ensures ReadSamples(Generator.Flatten(bits, samples), Generator.ByteWidth(bits), width, |samples|) == samples
    decreases |samples|
  {
    if samples != [] {
      var tail := samples[1..];
      FlattenFront(bits, samples);
      LayoutRead(bits, samples[0], Generator.Flatten(bits, tail));
      assert forall k :: 0 <= k < |tail| ==> tail[k] == samples[k + 1];
      ReadFlattened(bits, tail, width);
      assert [samples[0]] + tail == samples;
    }
  }

  /** The file a run without error writes reads back as exactly the samples it generated. */
  lemma ReadGenerated(bits: Generator.Bits, fields: seq<string>, count: int, wave: Generator.Waveform, index: int, data: seq<int>)
    ensures var g := Generator.Generate(bits, fields, count, wave, index, data);
      g.failed == None ==> ReadBinary(Some(g.out), count, |fields|, bits) == Ok(g.samples)
  {
    var g := Generator.Generate(bits, fields, count, wave, index, data);
    Generator.GenerateSize(bits, fields, count, wave, index, data);
    if g.failed == None {
      ValueBytesOfWidth(bits);
      ReadFlattened(bits, g.samples, |fields|);
    }
  }

  /** `abs(a - b) <= 1`: the tolerance of the period check. */
  predicate Close(a: int, b: int)
  {
    -1 <= a - b <= 1
  }

  /** `pattern_matches` after the positions `period <= i < k`. */
  function MatchCount(col: seq<int>, period: nat, k: nat): (n: nat)
    requires period <= k <= |col|
    ensures n <= k - period
    decreases k
  {
    if k == period then 0
    else MatchCount(col, period, k - 1) + (if Close(col[k - 1], col[k - 1 - period]) then 1 else 0)
  }

  /**
   * `verify_period`: false below two periods of data or without any position to check,
   * otherwise whether at least 80% of the positions match the value one period earlier.
   * A negative period reaches an index past the end of the column.
   */
  function PeriodVerdict(col: seq<int>, period: int): (r: Result<bool, CheckError>)
    ensures r.Err? <==> period < 0
    ensures r == Ok(true) ==> 0 <= period < |col| && 2 * period <= |col|
  {
    if |col| < period * 2 then Ok(false)
    else if period < 0 then Err(NegativePeriod(period))
    else
      var total := |col| - period;
      if total == 0 then Ok(false)
      else Ok(5 * MatchCount(col, period, |col|) >= 4 * total)
  }

  /** `verify_period`. */
  method VerifyPeriod(col: seq<int>, period: int) returns (r: Result<bool, CheckError>)
    ensures r == PeriodVerdict(col, period)
  {
    if |col| < period * 2 {
      return Ok(false);
    }
    if period < 0 {
      return Err(NegativePeriod(period));
    }
    var matches := 0;
    var total := 0;
    for i := period to |col|
      invariant matches == MatchCount(col, period, i) && total == i - period
    {
      if -1 <= col[i] - col[i - period] <= 1 {
        matches := matches + 1;
      }
      total := total + 1;
    }
    if total == 0 {
      return Ok(false);
    }
    return Ok(5 * matches >= 4 * total);
  }

  /** Every position that matches the value one period earlier is counted. */
  lemma {:induction false} AllClose(col: seq<int>, period: nat, k: nat)
    requires period <= k <= |col|
    requires forall i :: period <= i < k ==> Close(col[i], col[i - period])
    ensures MatchCount(col, period, k) == k - period
    decreases k
  {
    if k > period {
      AllClose(col, period, k - 1);
    }
  }

  /** No position that differs by more than the tolerance is counted. */
  lemma {:induction false} NoneClose(col: seq<int>, period: nat, k: nat)
    requires period <= k <= |col|
    requires forall i :: period <= i < k ==> !Close(col[i], col[i - period])
    ensures MatchCount(col, period, k) == 0
    decreases k
  {
    if k > period {
      NoneClose(col, period, k - 1);
    }
  }

  /** A column that repeats with the period, up to the tolerance, passes as soon as there are two periods of it. */
  lemma PeriodicColumnPasses(col: seq<int>, period: nat)
    requires |col| >= period * 2 && |col| > period
    requires forall i :: period <= i < |col| ==> Close(col[i], col[i - period])
    ensures PeriodVerdict(col, period) == Ok(true)
  {
    AllClose(col, period, |col|);
  }

  /** A column that never repeats with the period fails. */
  lemma AperiodicColumnFails(col: seq<int>, period: int)
    requires period >= 0
    requires forall i :: period <= i < |col| ==> !Close(col[i], col[i - period])
    ensures PeriodVerdict(col, period) == Ok(false)
  {
    if |col| >= period * 2 {
      NoneClose(col, period, |col|);
    }
  }

  /** The column of a square-wave field over 80 or more samples passes the check with period 40. */
  lemma SquareColumnPasses(bits: Generator.Bits, params: seq<Generator.Param>, col: seq<int>)
    requires |col| >= 80
    requires forall i :: 0 <= i < |col| ==> Generator.Square(bits, params, i) == Ok(col[i])
    ensures PeriodVerdict(col, 40) == Ok(true)
  {
    forall i | 40 <= i < |col|
      ensures Close(col[i], col[i - 40])
    {
      Generator.SquarePeriodic(bits, params, i - 40);
    }
    PeriodicColumnPasses(col, 40);
  }

  /** The column of a QRS field with a positive R period passes the check with that period. */
  lemma QrsColumnPasses(bits: Generator.Bits, params: seq<Generator.Param>, col: seq<int>)
    requires |params| >= 6 && params[3].PInt? && params[3].n > 0
    requires |col| >= params[3].n * 2
    requires forall i :: 0 <= i < |col| ==> Generator.Qrs(bits, params, i) == Ok(col[i])
    ensures PeriodVerdict(col, params[3].n) == Ok(true)
  {
    var p := params[3].n;
    forall i | p <= i < |col|
      ensures Close(col[i], col[i - p])
    {
      Generator.QrsPeriodic(bits, params, i - p);
    }
    PeriodicColumnPasses(col, p);
  }
}
