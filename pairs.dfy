/** Pairing contact-force files found in a directory with their ECG exports, as `get_files`
    does: the glob results are walked in order, a `lim` restricts which of them are looked at,
    and a pair is kept only when the ECG file exists. */
module Pairs {
  import opened Errors
  import opened Text
  import opened Names

  /** `lim is None or (lim and i < lim)`: glob result `i` is looked at. */
  predicate Considered(lim: Option<int>, i: nat) {
    lim.None? || (lim.value != 0 && i < lim.value)
  }

  /** The ECG file `get_files` looks for: `search_dir + "\\<map>_P<point>_ECG_Export.txt"`,
      where `<map>` is the second backslash-separated piece of the first group. A name the
      pattern does not match raises AttributeError (`.group` on `None`); a first group without
      a backslash raises IndexError. */
  function DirectoryPartner(searchDir: string, name: string): (r: Result<string>)
    ensures ContactForceGroups(name).None? ==> r == Err(AttributeError)
    ensures ContactForceGroups(name).Some? ==>
      var (prefix, point) := ContactForceGroups(name).value;
      && (r.Err? <==> '\\' !in prefix)
      && (r.Err? ==> r.error == IndexError)
      && (r.Ok? ==> r.value == searchDir + "\\" + MapName(prefix).value + "_P" + point + "_ECG_Export.txt")
  {
    match ContactForceGroups(name)
    case None => Err(AttributeError)
    case Some((prefix, point)) =>
      MapNameBetweenBackslashes(prefix);
      match MapName(prefix)
      case Err(e) => Err(e)
      case Ok(mapName) => Ok(searchDir + "\\" + mapName + "_P" + point + "_ECG_Export.txt")
  }

  /** The partner rule of one search directory. */
  function DirectoryPartnerIn(searchDir: string): string -> Result<string> {
    name => DirectoryPartner(searchDir, name)
  }

  /** For a glob result `<dir>\<map>_P<point>_ContactForce.txt` (directory and map names free of
      backslashes, point free of `_P`) the partner is `<searchDir>\<map>_P<point>_ECG_Export.txt`. */
  lemma DirectoryPartnerOfName(searchDir: string, dir: string, mapName: string, point: string)
    requires '\\' !in dir && '\\' !in mapName
    requires forall k: nat :: !OccursAt(point, k, "_P")
    ensures DirectoryPartner(searchDir, dir + "\\" + mapName + "_P" + point + "_ContactForce.txt")
      == Ok(searchDir + "\\" + mapName + "_P" + point + "_ECG_Export.txt")
  {
    var prefix := dir + "\\" + mapName;
    assert prefix + "_P" + point + "_ContactForce.txt" == dir + "\\" + mapName + "_P" + point + "_ContactForce.txt";
    ContactForceGroupsOfName(prefix, point);
    MapNameBetweenBackslashes(prefix);
    assert prefix[|dir|] == '\\';
    assert IndexOf(prefix, '\\') == Some(|dir|);
    assert prefix[|dir| + 1..] == mapName;
  }

  /** The two lists `get_files` builds from the glob results `names`: contact-force names and
      their ECG partners, for the results looked at whose partner `found` reports as existing;
      `partner` is the name rule, and its errors propagate. */
  function Partners(names: seq<string>, lim: Option<int>, partner: string -> Result<string>, found: string -> bool): (r: Result<(seq<string>, seq<string>)>)
    ensures r.Ok? ==> |r.value.0| == |r.value.1| <= |names|
  {
    if names == [] then Ok(([], []))
    else
      var i := |names| - 1;
      var init := names[..i];
      match Partners(init, lim, partner, found)
      case Err(e) => Err(e)
      case Ok((cfs, ecgs)) =>
        if !Considered(lim, i) then Ok((cfs, ecgs))
        else match partner(names[i])
          case Err(e) => Err(e)
          case Ok(ecg) => if found(ecg) then Ok((cfs + [names[i]], ecgs + [ecg])) else Ok((cfs, ecgs))
  }

  /** The pairing fails exactly when the partner rule fails on a result that is looked at, and
      then with that rule's error. */
  lemma {:induction false} PartnersFail(names: seq<string>, lim: Option<int>, partner: string -> Result<string>, found: string -> bool)
    ensures Partners(names, lim, partner, found).Ok? <==>
      forall i :: 0 <= i < |names| && Considered(lim, i) ==> partner(names[i]).Ok?
    ensures Partners(names, lim, partner, found).Err? ==>
      exists i :: 0 <= i < |names| && Considered(lim, i) && partner(names[i]) == Err(Partners(names, lim, partner, found).error)
    decreases |names|
  {
    if names != [] {
      var n := |names| - 1;
      var init := names[..n];
      PartnersFail(init, lim, partner, found);
      var r := Partners(names, lim, partner, found);
      var ri := Partners(init, lim, partner, found);
      if ri.Err? {
        var i :| 0 <= i < n && Considered(lim, i) && partner(init[i]) == Err(ri.error);
        assert names[i] == init[i];
        assert r == ri;
      } else {
        forall i | 0 <= i < n && Considered(lim, i)
          ensures partner(names[i]).Ok?
        {
          assert names[i] == init[i];
        }
        if r.Err? {
          assert Considered(lim, n) && partner(names[n]) == Err(r.error);
        }
      }
    }
  }

  /** `x` is one of the glob results that are looked at. */
  predicate LookedAt(names: seq<string>, lim: Option<int>, x: string) {
    exists i :: 0 <= i < |names| && Considered(lim, i) && names[i] == x
  }

  /** A result looked at among the first `k` is looked at among all of them. */
  lemma LookedAtPrefix(names: seq<string>, k: nat, lim: Option<int>, x: string)
    requires k <= |names| && LookedAt(names[..k], lim, x)
    ensures LookedAt(names, lim, x)
  {
    var i :| 0 <= i < k && Considered(lim, i) && names[..k][i] == x;
    assert names[i] == x;
  }

  /** Every kept pair is a result that is looked at and its partner, which exists. */
  lemma {:induction false} PartnersSound(names: seq<string>, lim: Option<int>, partner: string -> Result<string>, found: string -> bool)
    requires Partners(names, lim, partner, found).Ok?
    ensures
      var cfs := Partners(names, lim, partner, found).value.0;
      var ecgs := Partners(names, lim, partner, found).value.1;
      forall j :: 0 <= j < |cfs| ==>
        && LookedAt(names, lim, cfs[j]) && partner(cfs[j]) == Ok(ecgs[j]) && found(ecgs[j])
    decreases |names|
  {
    if names != [] {
      var n := |names| - 1;
      var init := names[..n];
      PartnersSound(init, lim, partner, found);
      var cfs := Partners(names, lim, partner, found).value.0;
      var ecgs := Partners(names, lim, partner, found).value.1;
      var cfsI := Partners(init, lim, partner, found).value.0;
      var ecgsI := Partners(init, lim, partner, found).value.1;
      forall j | 0 <= j < |cfsI|
        ensures LookedAt(names, lim, cfsI[j])
      {
        LookedAtPrefix(names, n, lim, cfsI[j]);
      }
      if Considered(lim, n) && found(partner(names[n]).value) {
        var ecg := partner(names[n]).value;
        assert cfs == cfsI + [names[n]] && ecgs == ecgsI + [ecg];
        forall j | 0 <= j < |cfs|
          ensures LookedAt(names, lim, cfs[j])
          ensures partner(cfs[j]) == Ok(ecgs[j]) && found(ecgs[j])
        {
          if j == |cfsI| {
            assert cfs[j] == names[n] && ecgs[j] == ecg;
          } else {
            assert cfs[j] == cfsI[j] && ecgs[j] == ecgsI[j];
          }
        }
      } else {
        assert cfs == cfsI && ecgs == ecgsI;
        forall j | 0 <= j < |cfs|
          ensures LookedAt(names, lim, cfs[j])
          ensures partner(cfs[j]) == Ok(ecgs[j]) && found(ecgs[j])
        {
          assert cfs[j] == cfsI[j] && ecgs[j] == ecgsI[j];
        }
      }
    }
  }

  /** The loop of `get_files`: two lists and a `count` grown together. */
  method PairFiles(names: seq<string>, lim: Option<int>, partner: string -> Result<string>, found: string -> bool) returns (r: Result<(seq<string>, seq<string>)>)
    ensures r == Partners(names, lim, partner, found)
  {
    var contactFiles: seq<string> := [];
    var ecgFiles: seq<string> := [];
    var count := 0;
    var i := 0;
    while i < |names|
      invariant 0 <= i <= |names|
      invariant Partners(names[..i], lim, partner, found) == Ok((contactFiles, ecgFiles))
      invariant count == |contactFiles|
    {
      assert names[..i + 1][..i] == names[..i];
      if Considered(lim, i) {
        var ecg := partner(names[i]);
        if ecg.Err? {
          assert names[..i + 1][i] == names[i];
          PartnersFailed(names, lim, partner, found, i + 1);
          return Err(ecg.error);
        }
        if found(ecg.value) {
          contactFiles := contactFiles + [names[i]];
          ecgFiles := ecgFiles + [ecg.value];
          count := count + 1;
        }
      }
      i := i + 1;
    }
    assert names[..i] == names;
    return Ok((contactFiles, ecgFiles));
  }

  /** The first error raised stops the loop: later names cannot change it. */
  lemma {:induction false} PartnersFailed(names: seq<string>, lim: Option<int>, partner: string -> Result<string>, found: string -> bool, k: nat)
    requires k <= |names| && Partners(names[..k], lim, partner, found).Err?
    ensures Partners(names, lim, partner, found) == Partners(names[..k], lim, partner, found)
    decreases |names|
  {
    if k == |names| {
      assert names[..k] == names;
    } else {
      var init := names[..|names| - 1];
      assert init[..k] == names[..k];
      PartnersFailed(init, lim, partner, found, k);
    }
  }

  /** A glob result that is looked at and whose partner exists is kept. */
  lemma {:induction false} PartnersComplete(names: seq<string>, lim: Option<int>, partner: string -> Result<string>, found: string -> bool, i: nat)
    requires Partners(names, lim, partner, found).Ok?
    requires i < |names| && Considered(lim, i) && partner(names[i]).Ok? && found(partner(names[i]).value)
    ensures names[i] in Partners(names, lim, partner, found).value.0
    ensures partner(names[i]).value in Partners(names, lim, partner, found).value.1
    decreases |names|
  {
    var n := |names| - 1;
    var init := names[..n];
    if i < n {
      assert init[i] == names[i];
      PartnersComplete(init, lim, partner, found, i);
    }
  }

  /** Without a limit the pairs of a concatenation are the pairs of its parts, in order. */
  lemma {:induction false} PartnersAppend(a: seq<string>, b: seq<string>, partner: string -> Result<string>, found: string -> bool)
    requires Partners(a + b, None, partner, found).Ok?
    ensures Partners(a, None, partner, found).Ok? && Partners(b, None, partner, found).Ok?
    ensures
      var (cfs, ecgs) := Partners(a + b, None, partner, found).value;
      var (cfsA, ecgsA) := Partners(a, None, partner, found).value;
      var (cfsB, ecgsB) := Partners(b, None, partner, found).value;
      cfs == cfsA + cfsB && ecgs == ecgsA + ecgsB
    decreases |b|
  {
    var ab := a + b;
    if b == [] {
      assert ab == a;
    } else {
      var n := |b| - 1;
      assert ab[..|ab| - 1] == a + b[..n];
      assert ab[|ab| - 1] == b[n];
      PartnersAppend(a, b[..n], partner, found);
    }
  }

  /** The limit rule: a positive `lim` looks at the first `lim` glob results only, and a zero or
      negative one at none of them. */
  lemma {:induction false} PartnersLimit(names: seq<string>, l: int, partner: string -> Result<string>, found: string -> bool)
    ensures l <= 0 ==> Partners(names, Some(l), partner, found) == Ok(([], []))
    ensures l > 0 ==>
      Partners(names, Some(l), partner, found) == Partners(names[..if l < |names| then l else |names|], None, partner, found)
    decreases |names|
  {
    if names != [] {
      var n := |names| - 1;
      PartnersLimit(names[..n], l, partner, found);
      if l > 0 && n >= l {
        assert names[..n][..if l < n then l else n] == names[..l];
      } else if l > 0 {
        assert names[..n][..n] == names[..n];
        assert names[..n + 1] == names;
      }
    }
  }
}
