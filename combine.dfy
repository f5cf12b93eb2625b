/**
 * `combine_files`: the numbered files `base.1.bin`, `base.2.bin`, … are concatenated, in
 * index order, into one output file. The file system is a map from file name to contents.
 */
module Combine {
  import opened Text
  import opened Bytes

  type Files = map<string, seq<byte>>

  /** The base name with one trailing `.bin` removed. */
  function Stem(base: string): (s: string)
    ensures EndsWith(base, ".bin") ==> s + ".bin" == base
    ensures !EndsWith(base, ".bin") ==> s == base
  {
    if EndsWith(base, ".bin") then base[..|base| - 4] else base
  }

  /** `f"{base_filename}.{i}.bin"`. */
  function InputName(stem: string, i: nat): string
  {
    stem + "." + NatToString(i) + ".bin"
  }

  /** `combined_data` after the inputs `1..k`: the contents of those that exist, in index order. */
  function CombinedData(files: Files, stem: string, k: nat): seq<byte>
  {
    if k == 0 then []
    else CombinedData(files, stem, k - 1) + (if InputName(stem, k) in files then files[InputName(stem, k)] else [])
  }

  /** `files_found` after the inputs `1..k`. */
  function FoundCount(files: Files, stem: string, k: nat): (n: nat)
    ensures n <= k
  {
    if k == 0 then 0
    else FoundCount(files, stem, k - 1) + (if InputName(stem, k) in files then 1 else 0)
  }

  /** The inputs `1..count`, none when `count` is not positive. */
  function Last(count: int): nat
  {
    if count < 0 then 0 else count
  }

  /** What `combine_files` returns, and the files afterwards. */
  datatype Outcome = Outcome(ok: bool, files: Files)

  /** `combine_files`: whether it succeeded and the files afterwards; only the output can change. */
  function CombineResult(files: Files, base: string, count: int, output: string): (r: Outcome)
    ensures !r.ok ==> r.files == files
    ensures r.ok ==> r.files.Keys == files.Keys + {output}
    ensures forall f :: f in files && f != output ==> f in r.files && r.files[f] == files[f]
  {
    var stem := Stem(base);
    if FoundCount(files, stem, Last(count)) == 0 then Outcome(false, files)
    else Outcome(true, files[output := CombinedData(files, stem, Last(count))])
  }

  /** `combine_files`. */
  method CombineFiles(files: Files, base: string, count: int, output: string) returns (r: Outcome)
    ensures r == CombineResult(files, base, count, output)
  {
    var stem := base;
    if EndsWith(base, ".bin") {
      stem := base[..|base| - 4];
    }
    var combined: seq<byte> := [];
    var found := 0;
    var i := 1;
    while i <= count
      invariant 1 <= i <= Last(count) + 1
      invariant combined == CombinedData(files, stem, i - 1) && found == FoundCount(files, stem, i - 1)
      decreases count - i
    {
      var input := stem + "." + NatToString(i) + ".bin";
      if input in files {
        combined := combined + files[input];
        found := found + 1;
      }
      i := i + 1;
    }
    if found == 0 {
      return Outcome(false, files);
    }
    return Outcome(true, files[output := combined]);
  }

  /** Different indices name different inputs, so no input is read twice. */
  lemma InputNameInjective(stem: string, i: nat, j: nat)
    requires InputName(stem, i) == InputName(stem, j)
    ensures i == j
  {
    var a, b := InputName(stem, i), InputName(stem, j);
    var n := |stem| + 1;
    assert a[n..|a| - 4] == NatToString(i);
    assert b[n..|b| - 4] == NatToString(j);
    NatToStringValue(i);
    NatToStringValue(j);
  }

  /** No input was found exactly when none of `base.1.bin` … `base.k.bin` exists. */
  lemma {:induction false} FoundNone(files: Files, stem: string, k: nat)
    ensures FoundCount(files, stem, k) == 0 <==> forall i :: 1 <= i <= k ==> InputName(stem, i) !in files
  {
    if k > 0 {
      FoundNone(files, stem, k - 1);
    }
  }

  /** The sum of the sizes of the inputs `1..k` that exist. */
  function TotalSize(files: Files, stem: string, k: nat): nat
  {
    if k == 0 then 0
    else TotalSize(files, stem, k - 1) + (if InputName(stem, k) in files then |files[InputName(stem, k)]| else 0)
  }

  /** The combined data is as long as the inputs together. */
  lemma {:induction false} CombinedSize(files: Files, stem: string, k: nat)
    ensures |CombinedData(files, stem, k)| == TotalSize(files, stem, k)
  {
    if k > 0 {
      CombinedSize(files, stem, k - 1);
    }
  }

  /** Later inputs only append: the data after `i` inputs is a prefix of the data after `k`. */
  lemma {:induction false} CombinedPrefix(files: Files, stem: string, i: nat, k: nat)
    requires i <= k
    ensures var d := CombinedData(files, stem, i);
      |d| <= |CombinedData(files, stem, k)| && CombinedData(files, stem, k)[..|d|] == d
    decreases k
  {
    if i < k {
      CombinedPrefix(files, stem, i, k - 1);
      var d, e := CombinedData(files, stem, i), CombinedData(files, stem, k - 1);
      assert CombinedData(files, stem, k)[..|e|] == e;
      assert e[..|d|] == d;
    }
  }

  /** Each input that exists appears whole, right after the inputs before it. */
  lemma InputPlaced(files: Files, stem: string, i: nat, k: nat)
    requires 1 <= i <= k && InputName(stem, i) in files
    ensures var start := |CombinedData(files, stem, i - 1)|;
      var input := files[InputName(stem, i)];
      start + |input| <= |CombinedData(files, stem, k)|
      && CombinedData(files, stem, k)[start..start + |input|] == input
  {
    CombinedPrefix(files, stem, i, k);
    var d := CombinedData(files, stem, i);
    var all := CombinedData(files, stem, k);
    var start := |CombinedData(files, stem, i - 1)|;
    assert all[start..|d|] == d[start..];
  }

  /**
   * `combine_files` succeeds exactly when one of the inputs exists. It then writes the
   * combined data, as long as the inputs together, to the output and changes no other file;
   * otherwise it writes nothing.
   */
  lemma CombineOutcome(files: Files, base: string, count: int, output: string)
    ensures var r := CombineResult(files, base, count, output);
      var stem, k := Stem(base), Last(count);
      (r.ok <==> exists i :: 1 <= i <= k && InputName(stem, i) in files)
      && (!r.ok ==> r.files == files)
      && (r.ok ==> output in r.files && |r.files[output]| == TotalSize(files, stem, k)
                   && forall name :: name != output ==>
                        ((name in r.files <==> name in files) && (name in files ==> r.files[name] == files[name])))
  {
    var stem, k := Stem(base), Last(count);
    FoundNone(files, stem, k);
    CombinedSize(files, stem, k);
  }
}
