/** `image.py`: the lead reader that iterates over `ders` whatever its type. */
module Image {
  import opened Errors
  import Table
  import Leads

  /** The leads `enumerate(ders)` yields: a tuple's items, a string's characters one by one, a
      list's elements; TypeError when `ders` cannot be iterated. */
  function IteratedLeads(ders: Leads.Ders): (r: Result<seq<string>>)
    ensures r.Err? <==> ders.Other? && ders.elements.None?
    ensures r.Err? ==> r.error == TypeError
    ensures ders.Tuple? ==> r == Ok(ders.items)
    ensures ders.Str? ==> r.Ok? && |r.value| == |ders.text| && forall i :: 0 <= i < |ders.text| ==> r.value[i] == [ders.text[i]]
  {
    match ders
    case Tuple(items) => Ok(items)
    case Str(text) => Ok(seq(|text|, i requires 0 <= i < |text| => [text[i]]))
    case Other(None) => Err(TypeError)
    case Other(Some(elements)) => Ok(elements)
  }

  /** The lead matrix `get_ecg_data` returns: `channels` is always bound here, so the reader is
      the shared lead reader over the iterated leads. */
  function ImageMatrix(lines: seq<string>, ders: Leads.Ders): (r: Result<seq<seq<int>>>)
    ensures IteratedLeads(ders).Err? ==> r == Err(TypeError)
    ensures IteratedLeads(ders).Ok? ==> r == Leads.LeadMatrix(lines, IteratedLeads(ders).value)
  {
    match IteratedLeads(ders)
    case Err(e) => Err(e)
    case Ok(leads) => Leads.LeadMatrix(lines, leads)
  }

  /** `get_ecg_data(filename, ders)`: the matrix and the lead names. */
  method GetEcgData(lines: seq<string>, ders: Leads.Ders) returns (r: Result<(seq<seq<int>>, Leads.Ders)>)
    ensures r.Ok? <==> ImageMatrix(lines, ders).Ok?
    ensures r.Err? ==> r.error == ImageMatrix(lines, ders).error
    ensures r.Ok? ==> r.value == (ImageMatrix(lines, ders).value, ders)
  {
    var leads := IteratedLeads(ders);
    if leads.Err? {
      return Err(leads.error);
    }
    var rows := Leads.ReadLeads(lines, leads.value);
    if rows.Err? {
      return Err(rows.error);
    }
    return Ok((Table.Transpose(rows.value, |leads.value|), ders));
  }

  /** For a tuple, and for a one-character string, this reader and the tuple/str reader of the
      plotting scripts agree; a longer string is read here as one lead per character. */
  lemma ImageMatchesDispatch(lines: seq<string>, ders: Leads.Ders)
    requires ders.Tuple? || (ders.Str? && |ders.text| == 1)
    ensures ImageMatrix(lines, ders) == Leads.DispatchedMatrix(lines, ders)
  {
    if ders.Str? {
      assert [ders.text[0]] == ders.text;
      assert IteratedLeads(ders).value == [ders.text];
    }
  }
}
