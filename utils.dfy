/**
 * `drop_left_zeros_df`: every text (object dtype) column of a frame has the
 * leading '0' characters of each cell removed and is then whitespace-trimmed;
 * numeric columns are left as they are.
 */
module Utils {
  import opened PyStr
  import opened Frames

  /** One text cell as the normalisation leaves it: `cell.lstrip("0").strip()`. */
  function StripCell(s: string): (r: string)
    ensures |r| <= |s|
    ensures r != [] ==> !IsSpace(r[0]) && !IsSpace(r[|r| - 1])
    ensures AllAre(s, '0') ==> r == []
  {
    Strip(LStrip(s, '0'))
  }

  /**
   * The raw cell splits into its longest run of leading '0's, whitespace, the
   * normalised cell, and whitespace. With `StripCell`'s own contract (a
   * non-space at both ends) this fixes the normalised cell.
   */
  lemma StripCellParts(s: string)
    ensures exists z, w1, w2 ::
      && s == z + w1 + StripCell(s) + w2
      && AllAre(z, '0') && (|z| < |s| ==> s[|z|] != '0') && AllSpace(w1) && AllSpace(w2)
  {
    var z, w1, w2 := CellPieces(s);
  }

  /** The three pieces around the normalised cell, named. */
  lemma CellPieces(s: string) returns (z: string, w1: string, w2: string)
    ensures s == z + w1 + StripCell(s) + w2
    ensures AllAre(z, '0') && (|z| < |s| ==> s[|z|] != '0') && AllSpace(w1) && AllSpace(w2)
  {
    var u := LStrip(s, '0');
    z := ZeroRun(s);
    w1, w2 := SpaceAround(u);
    Regroup(z, w1, Strip(u), w2);
  }

  /** The run of '0's that `lstrip("0")` drops. */
  lemma ZeroRun(s: string) returns (z: string)
    ensures s == z + LStrip(s, '0')
    ensures AllAre(z, '0') && (|z| < |s| ==> s[|z|] != '0')
  {
    LStripParts(s, '0');
    z := s[..|s| - |LStrip(s, '0')|];
    assert s == z + s[|z|..];
  }

  /** The whitespace that `strip()` drops at each end. */
  lemma SpaceAround(u: string) returns (w1: string, w2: string)
    ensures u == w1 + Strip(u) + w2
    ensures AllSpace(w1) && AllSpace(w2)
  {
    var n, r := LeadingSpaces(u), Strip(u);
    StripParts(u);
    w1, w2 := u[..n], u[n + |r|..];
    SplitThree(u, n, n + |r|);
  }

  lemma SplitThree(u: string, i: nat, j: nat)
    requires i <= j <= |u|
    ensures u == u[..i] + u[i..j] + u[j..]
  {
    assert u[..j] == u[..i] + u[i..j];
  }

  lemma Regroup(z: string, w1: string, r: string, w2: string)
    ensures z + (w1 + r + w2) == z + w1 + r + w2
  {
  }

  /** Without whitespace in the cell, no '0' is left at its start. */
  lemma StripCellNoLeadingZero(s: string)
    requires forall k :: 0 <= k < |s| ==> !IsSpace(s[k])
    ensures StripCell(s) == [] || StripCell(s)[0] != '0'
  {
    var t := LStrip(s, '0');
    assert forall k :: 0 <= k < |t| ==> t[k] == s[PrefixRun(s, '0') + k];
    SpacelessStrip(t);
  }

  /** Zeros behind leading whitespace survive: `" 012"` becomes `"012"`. */
  lemma StripCellKeepsZerosAfterSpace()
    ensures StripCell(" 012") == "012"
  {
    assert PrefixRun(" 012", '0') == 0;
    assert LeadingSpaces(" 012"[1..]) == 0;
    assert LeadingSpaces(" 012") == 1;
    assert " 012"[1..] == "012";
    assert TrailingSpaces("012") == 0;
  }

  /** A second pass then removes that zero: `"012"` becomes `"12"`. */
  lemma StripCellDropsZero()
    ensures StripCell("012") == "12"
  {
    assert PrefixRun("012"[1..], '0') == 0;
    assert PrefixRun("012", '0') == 1;
    assert "012"[1..] == "12";
    assert LeadingSpaces("12") == 0;
    assert TrailingSpaces("12") == 0;
  }

  /** Hence the normalisation is not idempotent. */
  lemma StripCellNotIdempotent()
    ensures StripCell(StripCell(" 012")) != StripCell(" 012")
  {
    StripCellKeepsZerosAfterSpace();
    StripCellDropsZero();
  }

  /** It is idempotent on cells whose normalised form does not start with '0'. */
  lemma StripCellIdempotent(s: string)
    requires StripCell(s) == [] || StripCell(s)[0] != '0'
    ensures StripCell(StripCell(s)) == StripCell(s)
  {
    var r := StripCell(s);
    assert PrefixRun(r, '0') == 0;
    assert LStrip(r, '0') == r;
    if r != [] {
      assert LeadingSpaces(r) == 0;
      assert TrailingSpaces(r) == 0;
    }
  }

  /** A column after normalisation: only object columns are rewritten. */
  function NormalizeColumn(c: Column): (r: Column)
    ensures Length(r) == Length(c)
    ensures !c.Texts? ==> r == c
    ensures c.Texts? ==> r.Texts? && forall i :: 0 <= i < |c.cells| ==> r.cells[i] == StripCell(c.cells[i])
  {
    match c
    case Texts(cells) => Texts(seq(|cells|, i requires 0 <= i < |cells| => StripCell(cells[i])))
    case _ => c
  }

  /** The frame `drop_left_zeros_df` returns. */
  function DropLeftZeros<K>(t: Table<K>): (r: Table<K>)
    ensures r.rows == t.rows && r.order == t.order && r.data.Keys == t.data.Keys
  {
    Table(t.rows, t.order, map k | k in t.data :: NormalizeColumn(t.data[k]))
  }

  /**
   * Normalisation keeps the index, the column names and their order, leaves
   * numeric columns unchanged and applies `StripCell` to every text cell.
   */
  lemma DropLeftZerosShape<K>(t: Table<K>)
    requires WellFormed(t)
    ensures var r := DropLeftZeros(t);
      && WellFormed(r) && r.rows == t.rows && r.order == t.order && r.data.Keys == t.data.Keys
      && (forall k :: k in t.data && !t.data[k].Texts? ==> r.data[k] == t.data[k])
      && (forall k, i :: k in t.data && t.data[k].Texts? && 0 <= i < |t.data[k].cells| ==>
            r.data[k].Texts? && r.data[k].cells[i] == StripCell(t.data[k].cells[i]))
  {
  }

  /** Normalisation keeps the index, the column names and their order. */
  lemma DropLeftZerosFrame<K>(t: Table<K>)
    requires WellFormed(t)
    ensures var r := DropLeftZeros(t);
      WellFormed(r) && r.rows == t.rows && r.order == t.order && r.data.Keys == t.data.Keys
  {
  }

  /** A one-row text column is normalised to its one cell's normal form. */
  lemma NormalizeOneCell(cell: string)
    ensures NormalizeColumn(Texts([cell])) == Texts([StripCell(cell)])
  {
  }

  /** `drop_left_zeros_df(df)`: rewrites the text columns of `df` in place and returns `df`. */
  method DropLeftZerosDf<K>(df: Frame<K>) returns (r: Frame<K>)
    requires df.Valid()
    modifies df
    ensures r == df && df.Valid() && df.Value() == DropLeftZeros(old(df.Value()))
  {
    ghost var t := df.Value();
    var i := 0;
    while i < |df.order|
      invariant 0 <= i <= |t.order| && df.order == t.order
      invariant df.Valid() && df.Value() == PartlyNormalized(t, i)
    {
      var name := df.order[i];
      NormalizeNext(t, i);
      if df.data[name].Texts? {
        df.Set(name, NormalizeColumn(df.data[name]));
      }
      i := i + 1;
    }
    assert i == |t.order|;
    NormalizedAll(t, df.Value());
    r := df;
  }

  /** The frame after the loop has normalised the first `i` columns of `t.order`. */
  ghost function PartlyNormalized<K>(t: Table<K>, i: nat): Table<K>
    requires i <= |t.order|
  {
    Table(t.rows, t.order, map k | k in t.data :: if k in t.order[..i] then NormalizeColumn(t.data[k]) else t.data[k])
  }

  /** One more column: a text column is reassigned in place, a numeric one is left alone. */
  lemma NormalizeNext<K>(t: Table<K>, i: nat)
    requires WellFormed(t) && i < |t.order|
    ensures var u, name := PartlyNormalized(t, i), t.order[i];
      && name in u.data && u.data[name] == t.data[name] && Length(NormalizeColumn(u.data[name])) == u.rows
      && PartlyNormalized(t, i + 1) ==
           if u.data[name].Texts? then Assign(u, name, NormalizeColumn(u.data[name])) else u
  {
    var u, name := PartlyNormalized(t, i), t.order[i];
    assert t.order[..i + 1] == t.order[..i] + [name];
    assert name !in t.order[..i];
    var v := PartlyNormalized(t, i + 1);
    if u.data[name].Texts? {
      assert v.data == u.data[name := NormalizeColumn(u.data[name])];
    } else {
      assert v.data == u.data;
    }
  }

  /** After the last column, the frame is `DropLeftZeros` of the original. */
  lemma NormalizedAll<K>(t: Table<K>, u: Table<K>)
    requires WellFormed(t) && u == PartlyNormalized(t, |t.order|)
    ensures u == DropLeftZeros(t)
  {
    assert t.order[..|t.order|] == t.order;
  }

}
