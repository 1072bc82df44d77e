/** `make_longer` of the ECG plotting scripts: every lead of a 2500-sample recording becomes a
    10000-sample trace, either the recording four times over or the recording followed by 7.5
    seconds of hidden samples. */
module Longer {
  import opened Errors

  /** A plotted sample: a value, or NaN, which the plot leaves out. */
  datatype Sample = Value(v: int) | Hidden

  /** The samples of a recorded lead. */
  function Samples(a: seq<int>): (r: seq<Sample>)
    ensures |r| == |a| && forall j :: 0 <= j < |a| ==> r[j] == Value(a[j])
  {
    seq(|a|, j requires 0 <= j < |a| => Value(a[j]))
  }

  /** The values of a run of visible samples: the inverse of `Samples`. */
  function Values(r: seq<Sample>): (a: seq<int>)
    requires forall j :: 0 <= j < |r| ==> r[j].Value?
    ensures |a| == |r| && Samples(a) == r
  {
    seq(|r|, j requires 0 <= j < |r| => r[j].v)
  }

  /** Samples in a row of the new array. */
  const Width: nat := 10000

  /** Samples of a recording that `make_longer` accepts. */
  const Recorded: nat := 2500

  /** The row built for one lead `a`: four copies when `multiply`, otherwise `a` followed by
      `np.zeros(7500)` whose first 7499 entries are set to NaN. `np.append` into the
      `(0, 10000)` array raises ValueError unless the row has 10000 samples. */
  function LongerRow(a: seq<int>, multiply: bool): (r: Result<seq<Sample>>)
    ensures r.Ok? <==> |a| == Recorded
    ensures r.Err? ==> r.error == ValueError
    ensures r.Ok? ==> |r.value| == Width
  {
    var row := if multiply then Samples(a) + Samples(a) + Samples(a) + Samples(a)
               else Samples(a) + seq(7499, _ => Hidden) + [Value(0)];
    if |row| == Width then Ok(row) else Err(ValueError)
  }

  /** The new array of `make_longer`, one row per lead, built front to back. */
  function LongerRows(m: seq<seq<int>>, multiply: bool): (r: Result<seq<seq<Sample>>>)
    ensures r.Ok? <==> forall k :: 0 <= k < |m| ==> |m[k]| == Recorded
    ensures r.Err? ==> r.error == ValueError
    ensures r.Ok? ==> |r.value| == |m| && forall k :: 0 <= k < |m| ==> LongerRow(m[k], multiply) == Ok(r.value[k])
  {
    if m == [] then Ok([])
    else
      var n := |m| - 1;
      assert forall k :: 0 <= k < n ==> m[..n][k] == m[k];
      match LongerRows(m[..n], multiply)
      case Err(e) => Err(e)
      case Ok(rows) =>
        match LongerRow(m[n], multiply)
        case Err(e) => Err(e)
        case Ok(row) => Ok(rows + [row])
  }

  /** `make_longer(array, multiply)`: `data` (the `array` argument) is the pair a reader
      returns, the matrix and the lead names, and the lead names come back unchanged. */
  method MakeLonger<T>(data: (seq<seq<int>>, T), multiply: bool) returns (r: Result<(seq<seq<Sample>>, T)>)
    ensures r.Ok? <==> LongerRows(data.0, multiply).Ok?
    ensures r.Err? ==> r.error == LongerRows(data.0, multiply).error
    ensures r.Ok? ==> r.value == (LongerRows(data.0, multiply).value, data.1)
  {
    var m := data.0;
    var rows: seq<seq<Sample>> := [];
    var i := 0;
    while i < |m|
      invariant 0 <= i <= |m|
      invariant LongerRows(m[..i], multiply) == Ok(rows)
    {
      assert m[..i + 1][..i] == m[..i];
      var a := m[i];
      var row: seq<Sample>;
      if multiply {
        row := Samples(a) + Samples(a) + Samples(a) + Samples(a);
      } else {
        row := Samples(a) + seq(7499, _ => Hidden) + [Value(0)];
      }
      if |row| != Width {
        LongerRowsFailed(m, multiply, i + 1);
        return Err(ValueError);
      }
      rows := rows + [row];
      i := i + 1;
    }
    assert m[..i] == m;
    return Ok((rows, data.1));
  }

  /** A lead of the wrong length fails the whole array. */
  lemma {:induction false} LongerRowsFailed(m: seq<seq<int>>, multiply: bool, k: nat)
    requires k <= |m| && LongerRows(m[..k], multiply).Err?
    ensures LongerRows(m, multiply) == LongerRows(m[..k], multiply)
    decreases |m|
  {
    if k == |m| {
      assert m[..k] == m;
    } else {
      var init := m[..|m| - 1];
      assert init[..k] == m[..k];
      LongerRowsFailed(init, multiply, k);
    }
  }

  /** With `multiply` the trace repeats the recording with period 2500. */
  lemma MultipliedRow(a: seq<int>, j: nat)
    requires |a| == Recorded && j < Width
    ensures LongerRow(a, true).value[j] == Value(a[j % Recorded])
  {
    var s := Samples(a);
    var row := s + s + s + s;
    assert row == LongerRow(a, true).value;
    if j < 2500 {
      assert row[j] == s[j];
    } else if j < 5000 {
      assert row[j] == s[j - 2500];
    } else if j < 7500 {
      assert row[j] == s[j - 5000];
    } else {
      assert row[j] == s[j - 7500];
    }
  }

  /** Without `multiply` the trace is the recording, then 7499 hidden samples and a final 0. */
  lemma PaddedRow(a: seq<int>, j: nat)
    requires |a| == Recorded && j < Width
    ensures LongerRow(a, false).value[j] ==
      if j < Recorded then Value(a[j]) else if j < Width - 1 then Hidden else Value(0)
  {
    var row := Samples(a) + seq(7499, _ => Hidden) + [Value(0)];
    assert row == LongerRow(a, false).value;
    if Recorded <= j < Width - 1 {
      assert row[j] == seq(7499, _ => Hidden)[j - Recorded];
    }
  }

  /** Either way the first 2500 samples of every new row give back the recorded lead. */
  lemma LongerRowsRecover(m: seq<seq<int>>, multiply: bool, k: nat)
    requires LongerRows(m, multiply).Ok? && k < |m|
    ensures forall j :: 0 <= j < Recorded ==> LongerRows(m, multiply).value[k][j].Value?
    ensures Values(LongerRows(m, multiply).value[k][..Recorded]) == m[k]
  {
    var row := LongerRows(m, multiply).value[k];
    assert LongerRow(m[k], multiply) == Ok(row);
    assert row[..Recorded] == Samples(m[k]);
  }
}
