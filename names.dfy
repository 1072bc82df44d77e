/** The file-name patterns the scripts match with regular expressions, written out as string
    functions. A name never holds a line break, so each unescaped `.` matches any character. */
module Names {
  import opened Errors
  import opened Text

  /** `re.search('(.*)_P(.*)_ContactForce.txt', name)`: the two groups, or `None` when the search
      fails. Both groups are greedy: the match ends at the last `_ContactForce?txt` of the name,
      and group 1 runs up to the last `_P` that ends before it. */
  function ContactForceGroups(name: string): (g: Option<(string, string)>)
    ensures g.None? <==> !exists p: nat, q: nat :: p + 2 <= q && OccursAt(name, p, "_P") && DotPatternAt(name, q, "_ContactForce", "txt")
    ensures g.Some? ==>
      var (prefix, point) := g.value;
      var q := |prefix| + 2 + |point|;
      && q + 17 <= |name|
      && name[..|prefix|] == prefix && OccursAt(name, |prefix|, "_P") && name[|prefix| + 2..q] == point
      && DotPatternAt(name, q, "_ContactForce", "txt")
      && (forall q': nat :: q < q' ==> !DotPatternAt(name, q', "_ContactForce", "txt"))
      && (forall p: nat :: |prefix| < p && p + 2 <= q ==> !OccursAt(name, p, "_P"))
  {
    match LastDotPattern(name, "_ContactForce", "txt", |name|)
    case None => None
    case Some(q) =>
      if q < 2 then None
      else match LastOccurrence(name, "_P", q - 1)
        case None => None
        case Some(p) => Some((name[..p], name[p + 2..q]))
  }

  /** The ECG export named after a contact-force file: `<group1>_P<group2>_ECG_Export.txt`. */
  function EcgPartner(name: string): Option<string> {
    match ContactForceGroups(name)
    case None => None
    case Some((prefix, point)) => Some(prefix + "_P" + point + "_ECG_Export.txt")
  }

  /** `re.search(before + '.' + after, name)` succeeds: `before`, any character and `after`
      occur in `name` one after the other. A leading `(.*)` in the pattern changes nothing. */
  function DotSearch(name: string, before: string, after: string): (b: bool)
    ensures b <==> exists q: nat :: DotPatternAt(name, q, before, after)
  {
    LastDotPattern(name, before, after, |name|).Some?
  }

  /** `re.search('(.*)_ECG_Export.txt', name)` succeeds. */
  function IsEcgExport(name: string): bool {
    DotSearch(name, "_ECG_Export", "txt")
  }

  /** `re.search('_cf_data.npy', name)` succeeds. */
  function IsContactNpy(name: string): bool {
    DotSearch(name, "_cf_data", "npy")
  }

  /** `prefix.split('\\')[1]`: the map name, or IndexError when `prefix` holds no backslash. */
  function MapName(prefix: string): Result<string> {
    var parts := Split(prefix, '\\');
    if |parts| < 2 then Err(IndexError) else Ok(parts[1])
  }

  /** Splitting text free of the separator gives the text back whole. */
  lemma {:induction false} SplitWithout(s: string, c: char)
    requires c !in s
    ensures Split(s, c) == [s]
    decreases |s|
  {
    if s != [] {
      assert c !in s[1..];
      SplitWithout(s[1..], c);
      assert s == [s[0]] + s[1..];
    }
  }

  /** The first piece of a split is the text before the first separator; the other pieces are
      the split of the text after it. */
  lemma {:induction false} SplitAtFirst(s: string, c: char, i: nat)
    requires IndexOf(s, c) == Some(i)
    ensures Split(s, c)[0] == s[..i] && Split(s, c)[1..] == Split(s[i + 1..], c)
    decreases |s|
  {
    var whole := Split(s, c);
    var rest := Split(s[1..], c);
    if s[0] == c {
      assert whole == [[]] + rest;
      assert whole[1..] == rest;
    } else {
      assert IndexOf(s[1..], c) == Some(i - 1);
      SplitAtFirst(s[1..], c, i - 1);
      assert whole == [[s[0]] + rest[0]] + rest[1..];
      assert whole[0] == [s[0]] + s[1..][..i - 1] == s[..i];
      assert whole[1..] == rest[1..];
      assert s[i + 1..] == s[1..][i..];
    }
  }

  /** The map name is the text between the first backslash of the prefix and the next one (or
      the end); the prefix must hold a backslash. */
  lemma MapNameBetweenBackslashes(prefix: string)
    ensures MapName(prefix).Err? <==> '\\' !in prefix
    ensures '\\' in prefix ==>
      var rest := prefix[IndexOf(prefix, '\\').value + 1..];
      MapName(prefix) == Ok(if '\\' in rest then rest[..IndexOf(rest, '\\').value] else rest)
  {
    if '\\' in prefix {
      var i := IndexOf(prefix, '\\').value;
      SplitAtFirst(prefix, '\\', i);
      var rest := prefix[i + 1..];
      if '\\' in rest {
        SplitAtFirst(rest, '\\', IndexOf(rest, '\\').value);
      } else {
        SplitWithout(rest, '\\');
      }
    } else {
      SplitWithout(prefix, '\\');
    }
  }

  /** The greedy groups recover the prefix and point of a name built as
      `<prefix>_P<point>_ContactForce.txt`, provided the point holds no `_P`. */
  lemma ContactForceGroupsOfName(prefix: string, point: string)
    requires forall k: nat :: !OccursAt(point, k, "_P")
    ensures ContactForceGroups(prefix + "_P" + point + "_ContactForce.txt") == Some((prefix, point))
  {
    var name := prefix + "_P" + point + "_ContactForce.txt";
    var q := |prefix| + 2 + |point|;
    assert DotPatternAt(name, q, "_ContactForce", "txt") by {
      assert name[q..q + 13] == "_ContactForce";
      assert name[q + 14..q + 17] == "txt";
    }
    assert OccursAt(name, |prefix|, "_P") by {
      assert name[|prefix|..|prefix| + 2] == "_P";
    }
    forall p: nat | |prefix| < p && p + 2 <= q
      ensures !OccursAt(name, p, "_P")
    {
      var k := p - |prefix| - 2;
      if p == |prefix| + 1 {
        assert name[p + 1] == (if |point| > 0 then point[0] else '_');
        assert name[p] == 'P';
      } else {
        assert !OccursAt(point, k, "_P");
        assert name[p..p + 2] == point[k..k + 2];
      }
    }
    var g := ContactForceGroups(name);
    assert g.Some?;
    var (m, pt) := g.value;
    assert m == prefix && pt == point;
  }

  /** So the ECG partner of `<prefix>_P<point>_ContactForce.txt` is `<prefix>_P<point>_ECG_Export.txt`. */
  lemma EcgPartnerOfName(prefix: string, point: string)
    requires forall k: nat :: !OccursAt(point, k, "_P")
    ensures EcgPartner(prefix + "_P" + point + "_ContactForce.txt") == Some(prefix + "_P" + point + "_ECG_Export.txt")
  {
    ContactForceGroupsOfName(prefix, point);
  }
}
