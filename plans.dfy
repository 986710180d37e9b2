/**
 * The record builders of the decoder fill a fresh frame one column at a
 * time: `df[name] = lines.str[start:end]`, for a few columns followed by a
 * numeric conversion. A plan lists those assignments in program order, one
 * `Step` per statement; running it applies them with pandas' rule that a
 * name assigned again is overwritten where it stands. An assignment whose
 * conversion raises ends the builder with that exception.
 */
module Plans {
  import opened Wrappers
  import opened PyStr
  import opened Frames
  import opened Records

  /** What becomes of the cut text before it is stored. */
  datatype Kind =
    | Text        // stored as cut (object dtype)
    | Integer     // `.str.lstrip("0").astype(int)`
    | Hundredths  // `.str.lstrip("0").astype(float).div(100)`, stored as hundredths

  /** One column assignment: the column name, the `[start, end)` cut and the conversion. */
  datatype Step<K> = Step(name: K, span: (nat, nat), kind: Kind)

  /** `lines.str[start:end]`: the same slice taken from every line. */
  function Cut(lines: seq<string>, span: (nat, nat)): (r: seq<string>)
    ensures |r| == |lines|
    ensures forall i :: 0 <= i < |lines| ==> r[i] == Slice(lines[i], span.0, span.1)
  {
    seq(|lines|, i requires 0 <= i < |lines| => Slice(lines[i], span.0, span.1))
  }

  /** `.str.lstrip("0")`: every cell without its leading zeros. */
  function Unpadded(cells: seq<string>): (r: seq<string>)
    ensures |r| == |cells| && forall i :: 0 <= i < |cells| ==> r[i] == LStrip(cells[i], '0')
  {
    seq(|cells|, i requires 0 <= i < |cells| => LStrip(cells[i], '0'))
  }

  /** Every cell is accepted by `parse`. */
  predicate AllParse(cells: seq<string>, parse: string -> Option<int>) {
    forall i :: 0 <= i < |cells| ==> parse(cells[i]).Some?
  }

  /**
   * `.astype(...)` on a text column: every cell converted by `parse`, in
   * order, or else the text of the first cell it rejects, which is what the
   * `ValueError` reports.
   */
  function ParseAll(cells: seq<string>, parse: string -> Option<int>): (r: Result<seq<int>, string>)
    ensures r.Ok? ==> |r.value| == |cells|
  {
    if cells == [] then Ok([])
    else
      match parse(cells[0])
      case None => Err(cells[0])
      case Some(v) =>
        var vs :- ParseAll(cells[1..], parse);
        Ok([v] + vs)
  }

  /** The conversion succeeds exactly when every cell parses, and then holds each cell's value. */
  lemma {:induction false} ParseAllValues(cells: seq<string>, parse: string -> Option<int>)
    ensures ParseAll(cells, parse).Ok? <==> AllParse(cells, parse)
    ensures ParseAll(cells, parse).Ok? ==>
      forall i :: 0 <= i < |cells| ==> parse(cells[i]) == Some(ParseAll(cells, parse).value[i])
  {
    if cells != [] {
      var rest := cells[1..];
      ParseAllValues(rest, parse);
      assert forall i :: 1 <= i < |cells| ==> cells[i] == rest[i - 1];
    }
  }

  /** A failed conversion reports the first cell that does not parse. */
  lemma {:induction false} ParseAllFirstError(cells: seq<string>, parse: string -> Option<int>)
    requires ParseAll(cells, parse).Err?
    ensures exists i ::
      && 0 <= i < |cells| && AllParse(cells[..i], parse)
      && parse(cells[i]).None? && ParseAll(cells, parse).error == cells[i]
  {
    if parse(cells[0]).Some? {
      var rest := cells[1..];
      ParseAllFirstError(rest, parse);
      var i :| 0 <= i < |rest| && AllParse(rest[..i], parse) && parse(rest[i]).None? && ParseAll(rest, parse).error == rest[i];
      assert AllParse(cells[..i + 1], parse) by {
        forall j | 0 <= j < i + 1 ensures parse(cells[j]).Some? {
          if j > 0 {
            assert cells[j] == rest[..i][j - 1];
          }
        }
      }
      assert cells[i + 1] == rest[i];
    } else {
      assert AllParse(cells[..0], parse);
    }
  }

  /**
   * `lines.str[start:end].str.lstrip("0")` converted cell by cell: the values,
   * or the zero-stripped text of the first cell `int()` rejects.
   */
  function Converted(lines: seq<string>, span: (nat, nat)): (r: Result<seq<int>, string>)
    ensures r.Ok? ==> |r.value| == |lines|
  {
    ParseAll(Unpadded(Cut(lines, span)), ParseInt)
  }

  /** A cell of zeros only, the empty cell included, is stripped to "" and `int()` rejects it. */
  lemma UnpaddedZeros(c: string)
    requires AllAre(c, '0')
    ensures LStrip(c, '0') == "" && ParseInt(LStrip(c, '0')) == None
  {
    assert PrefixRun(c, '0') == |c|;
    ParseIntDigits("");
  }

  /** A cell of ASCII digits that is not zeros only is read as its decimal value. */
  lemma UnpaddedDigits(c: string)
    requires forall k :: 0 <= k < |c| ==> IsDigit(c[k])
    requires !AllAre(c, '0')
    ensures ParseInt(LStrip(c, '0')) == Some(DecimalValue(c))
  {
    DigitsAfterZeros(c);
    ParseIntDigits(LStrip(c, '0'));
    LStripZerosValue(c);
  }

  /** A digit cell that is not zeros only keeps a non-empty run of digits after `lstrip("0")`. */
  lemma DigitsAfterZeros(c: string)
    requires forall k :: 0 <= k < |c| ==> IsDigit(c[k])
    requires !AllAre(c, '0')
    ensures IsDigits(LStrip(c, '0'))
  {
    LStripParts(c, '0');
    assert c[..|c|] == c;
  }

  /** `int()` of a digit cell without its leading zeros: rejected when the cell is zeros only, its value otherwise. */
  lemma UnpaddedDigitCell(c: string)
    requires forall k :: 0 <= k < |c| ==> IsDigit(c[k])
    ensures ParseInt(LStrip(c, '0')) == if AllAre(c, '0') then None else Some(DecimalValue(c))
  {
    if AllAre(c, '0') {
      UnpaddedZeros(c);
    } else {
      UnpaddedDigits(c);
    }
  }

  /**
   * In a converted field, a cell of digits holds its decimal value and is
   * not zeros only.
   */
  lemma ConvertedCell(lines: seq<string>, span: (nat, nat), i: nat)
    requires Converted(lines, span).Ok? && i < |lines|
    requires forall k :: 0 <= k < |Cut(lines, span)[i]| ==> IsDigit(Cut(lines, span)[i][k])
    ensures !AllAre(Cut(lines, span)[i], '0')
    ensures Converted(lines, span).value[i] == DecimalValue(Cut(lines, span)[i])
  {
    var cells := Cut(lines, span);
    ParseAllValues(Unpadded(cells), ParseInt);
    UnpaddedDigitCell(cells[i]);
  }

  /** A field with a cell of zeros only, or an empty cell, cannot be converted. */
  lemma ConvertedZeros(lines: seq<string>, span: (nat, nat), i: nat)
    requires i < |lines| && AllAre(Cut(lines, span)[i], '0')
    ensures Converted(lines, span).Err?
  {
    var cells := Cut(lines, span);
    ParseAllValues(Unpadded(cells), ParseInt);
    UnpaddedZeros(cells[i]);
  }

  /**
   * A converted field whose cells are all digits: it succeeds exactly when no
   * cell is zeros only, and then holds each cell's decimal value; otherwise
   * the error reports the empty text the first such cell was stripped to.
   */
  lemma ConvertedDigits(lines: seq<string>, span: (nat, nat))
    requires forall i, k :: 0 <= i < |lines| && 0 <= k < |Cut(lines, span)[i]| ==> IsDigit(Cut(lines, span)[i][k])
    ensures Converted(lines, span).Ok? <==> forall i :: 0 <= i < |lines| ==> !AllAre(Cut(lines, span)[i], '0')
    ensures Converted(lines, span).Ok? ==>
      forall i :: 0 <= i < |lines| ==> Converted(lines, span).value[i] == DecimalValue(Cut(lines, span)[i])
    ensures Converted(lines, span).Err? ==> Converted(lines, span).error == ""
  {
    var cells := Cut(lines, span);
    var stripped := Unpadded(cells);
    forall i | 0 <= i < |lines|
      ensures AllAre(cells[i], '0') ==> stripped[i] == "" && ParseInt(stripped[i]) == None
      ensures !AllAre(cells[i], '0') ==> ParseInt(stripped[i]) == Some(DecimalValue(cells[i]))
    {
      UnpaddedDigitCell(cells[i]);
    }
    ParseAllValues(stripped, ParseInt);
    if Converted(lines, span).Err? {
      ParseAllFirstError(stripped, ParseInt);
    }
  }

  /** The column one step stores, or the exception its conversion raises. */
  function Decode<K(==)>(lines: seq<string>, step: Step<K>): (r: Result<Column, Error>)
    ensures r.Ok? ==> Length(r.value) == |lines|
    ensures step.kind.Text? ==> r.Ok? && r.value.Texts?
    ensures step.kind.Integer? ==> r.Ok? ==> r.value.Ints?
    ensures step.kind.Hundredths? ==> r.Ok? ==> r.value.Floats?
  {
    match step.kind
    case Text => Ok(Texts(Cut(lines, step.span)))
    case Integer =>
      (match Converted(lines, step.span)
       case Ok(values) => Ok(Ints(values))
       case Err(raw) => Err(IntLiteral(raw)))
    case Hundredths =>
      (match Converted(lines, step.span)
       case Ok(values) => Ok(Floats(values))
       case Err(raw) => Err(FloatLiteral(raw)))
  }

  /** `names[i]` gets what `columns[i]` stores, or raises what it raises. */
  ghost predicate Fits(rows: nat, columns: seq<Result<Column, Error>>) {
    forall i :: 0 <= i < |columns| ==> columns[i].Ok? ==> Length(columns[i].value) == rows
  }

  /** No assignment raises. */
  ghost predicate AllOk<T>(columns: seq<Result<T, Error>>) {
    forall i :: 0 <= i < |columns| ==> columns[i].Ok?
  }

  /**
   * The assignments `df[names[i]] = columns[i]`, in order, on a fresh frame of
   * `rows` rows; the first column whose computation raised ends the builder.
   */
  function Apply<K(==)>(rows: nat, names: seq<K>, columns: seq<Result<Column, Error>>): (r: Result<Table<K>, Error>)
    requires |names| == |columns|
    ensures r.Ok? ==> r.value.rows == rows
    decreases |names|
  {
    if names == [] then Ok(Table(rows, [], map[]))
    else
      var n := |names| - 1;
      var t :- Apply(rows, names[..n], columns[..n]);
      var c :- columns[n];
      Ok(Assign(t, names[n], c))
  }

  /** The column names a plan assigns, statement by statement. */
  function Names<K>(plan: seq<Step<K>>): (r: seq<K>)
    ensures |r| == |plan| && forall i :: 0 <= i < |plan| ==> r[i] == plan[i].name
  {
    seq(|plan|, i requires 0 <= i < |plan| => plan[i].name)
  }

  /** What each statement of a plan stores or raises. */
  function Decoded<K(==)>(lines: seq<string>, plan: seq<Step<K>>): (r: seq<Result<Column, Error>>)
    ensures |r| == |plan| && forall i :: 0 <= i < |plan| ==> r[i] == Decode(lines, plan[i])
  {
    seq(|plan|, i requires 0 <= i < |plan| => Decode(lines, plan[i]))
  }

  /** The frame a builder has after running `plan` on a fresh frame with one row per line. */
  function Run<K(==)>(lines: seq<string>, plan: seq<Step<K>>): (r: Result<Table<K>, Error>)
    ensures r.Ok? ==> r.value.rows == |lines|
  {
    Apply(|lines|, Names(plan), Decoded(lines, plan))
  }

  /** Every column a plan decodes has one cell per line. */
  lemma DecodedFits<K>(lines: seq<string>, plan: seq<Step<K>>)
    ensures Fits(|lines|, Decoded(lines, plan))
  {
  }

  // ---------------------------------------------------------------------------
  // What a plan determines without running it
  // ---------------------------------------------------------------------------

  /** The column names in the order pandas keeps them: by first assignment. */
  function Appearance<K(==)>(names: seq<K>): (r: seq<K>)
    ensures forall i :: 0 <= i < |names| ==> names[i] in r
    ensures forall i :: 0 <= i < |r| ==> r[i] in names
    ensures Distinct(r)
    decreases |names|
  {
    if names == [] then []
    else
      var before := Appearance(names[..|names| - 1]);
      var name := names[|names| - 1];
      assert names == names[..|names| - 1] + [name];
      if name in before then before else before + [name]
  }

  ghost predicate Distinct<K>(s: seq<K>) {
    forall i, j :: 0 <= i < j < |s| ==> s[i] != s[j]
  }

  /** Distinct names keep the order in which they are assigned. */
  lemma AppearanceDistinct<K>(names: seq<K>)
    requires Distinct(names)
    ensures Appearance(names) == names
  {
    AppearanceExtends([], names);
    assert [] + names == names;
  }

  /** Names assigned again after their first assignment do not move. */
  lemma {:induction false} AppearanceRepeats<K>(names: seq<K>, again: seq<K>)
    requires forall i :: 0 <= i < |again| ==> again[i] in names
    ensures Appearance(names + again) == Appearance(names)
    decreases |again|
  {
    if again != [] {
      var init := again[..|again| - 1];
      assert (names + again)[..|names + again| - 1] == names + init;
      AppearanceRepeats(names, init);
      var j :| 0 <= j < |names| && names[j] == again[|again| - 1];
      assert (names + init)[j] == names[j];
      assert (names + again)[|names + again| - 1] == again[|again| - 1];
      assert again[|again| - 1] in Appearance(names + init);
    } else {
      assert names + again == names;
    }
  }

  /** Names assigned for the first time go to the end, in the order of their assignment. */
  lemma {:induction false} AppearanceExtends<K>(names: seq<K>, added: seq<K>)
    requires Distinct(added) && forall i :: 0 <= i < |added| ==> added[i] !in names
    ensures Appearance(names + added) == Appearance(names) + added
    decreases |added|
  {
    if added != [] {
      var init := added[..|added| - 1];
      assert (names + added)[..|names + added| - 1] == names + init;
      AppearanceExtends(names, init);
      var last := added[|added| - 1];
      assert last !in names + init by {
        forall h | 0 <= h < |init|
          ensures init[h] != last
        {
          assert init[h] == added[h];
        }
      }
      assert last !in Appearance(names + init);
      assert (names + added)[|names + added| - 1] == last;
      assert added == init + [last];
      assert Appearance(names) + added == (Appearance(names) + init) + [last];
    } else {
      assert names + added == names;
    }
  }

  // ---------------------------------------------------------------------------
  // Lemmas about the assignments
  // ---------------------------------------------------------------------------

  /** The assignments yield a well-formed frame. */
  lemma {:induction false} ApplyWellFormed<K>(rows: nat, names: seq<K>, columns: seq<Result<Column, Error>>)
    requires |names| == |columns| && Fits(rows, columns) && Apply(rows, names, columns).Ok?
    ensures WellFormed(Apply(rows, names, columns).value)
    decreases |names|
  {
    if names != [] {
      var n := |names| - 1;
      ApplyWellFormed(rows, names[..n], columns[..n]);
      AssignPositions(Apply(rows, names[..n], columns[..n]).value, names[n], columns[n].value);
    }
  }

  /** The frame has one column per assigned name, ordered by first assignment. */
  lemma {:induction false} ApplyOrder<K>(rows: nat, names: seq<K>, columns: seq<Result<Column, Error>>)
    requires |names| == |columns| && Apply(rows, names, columns).Ok?
    ensures Apply(rows, names, columns).value.order == Appearance(names)
    ensures forall k :: k in Apply(rows, names, columns).value.data <==> k in names
    decreases |names|
  {
    if names != [] {
      var n := |names| - 1;
      ApplyOrder(rows, names[..n], columns[..n]);
      assert names == names[..n] + [names[n]];
    }
  }

  /** A column holds what the last assignment to its name stored. */
  lemma {:induction false} ApplyLast<K>(rows: nat, names: seq<K>, columns: seq<Result<Column, Error>>, k: nat)
    requires |names| == |columns| && Apply(rows, names, columns).Ok?
    requires k < |names| && forall j :: k < j < |names| ==> names[j] != names[k]
    ensures names[k] in Apply(rows, names, columns).value.data
    ensures columns[k] == Ok(Apply(rows, names, columns).value.data[names[k]])
    decreases |names|
  {
    var n := |names| - 1;
    if k < n {
      ApplyLast(rows, names[..n], columns[..n], k);
    }
  }

  /** The builder gets through exactly when no assignment raises. */
  lemma {:induction false} ApplySucceeds<K>(rows: nat, names: seq<K>, columns: seq<Result<Column, Error>>)
    requires |names| == |columns|
    ensures Apply(rows, names, columns).Ok? <==> AllOk(columns)
    decreases |names|
  {
    if names != [] {
      var n := |names| - 1;
      ApplySucceeds(rows, names[..n], columns[..n]);
      assert AllOk(columns) <==> AllOk(columns[..n]) && columns[n].Ok?;
    }
  }

  /** A builder that raises, raises what its first failing assignment raised. */
  lemma {:induction false} ApplyFirstError<K>(rows: nat, names: seq<K>, columns: seq<Result<Column, Error>>)
    requires |names| == |columns| && Apply(rows, names, columns).Err?
    ensures exists i :: 0 <= i < |columns| && AllOk(columns[..i]) && columns[i] == Err(Apply(rows, names, columns).error)
    decreases |names|
  {
    var n := |names| - 1;
    if Apply(rows, names[..n], columns[..n]).Err? {
      ApplyFirstError(rows, names[..n], columns[..n]);
      var i :| 0 <= i < n && AllOk(columns[..n][..i]) && columns[..n][i] == Err(Apply(rows, names[..n], columns[..n]).error);
      assert columns[..n][..i] == columns[..i];
    } else {
      ApplySucceeds(rows, names[..n], columns[..n]);
    }
  }

  /** An assignment that raises after error-free ones decides the outcome. */
  lemma {:induction false} ApplyStopsAt<K>(rows: nat, names: seq<K>, columns: seq<Result<Column, Error>>, i: nat)
    requires |names| == |columns| && i < |names|
    requires Apply(rows, names[..i], columns[..i]).Ok? && columns[i].Err?
    ensures Apply(rows, names, columns) == Err(columns[i].error)
    decreases |names|
  {
    var n := |names| - 1;
    if i < n {
      assert names[..n][..i] == names[..i] && columns[..n][..i] == columns[..i];
      ApplyStopsAt(rows, names[..n], columns[..n], i);
    }
  }

  /** A run yields a well-formed frame whose columns are the plan's names in order of first assignment. */
  lemma RunShape<K>(lines: seq<string>, plan: seq<Step<K>>)
    requires Run(lines, plan).Ok?
    ensures WellFormed(Run(lines, plan).value)
    ensures Run(lines, plan).value.order == Appearance(Names(plan))
  {
    DecodedFits(lines, plan);
    ApplyWellFormed(|lines|, Names(plan), Decoded(lines, plan));
    ApplyOrder(|lines|, Names(plan), Decoded(lines, plan));
  }

  /** A column of a run holds what the last step assigning its name stored. */
  lemma RunLast<K>(lines: seq<string>, plan: seq<Step<K>>, k: nat)
    requires Run(lines, plan).Ok?
    requires k < |plan| && forall j :: k < j < |plan| ==> plan[j].name != plan[k].name
    ensures plan[k].name in Run(lines, plan).value.data
    ensures Decode(lines, plan[k]) == Ok(Run(lines, plan).value.data[plan[k].name])
  {
    ApplyLast(|lines|, Names(plan), Decoded(lines, plan), k);
  }

  /** A text step stores its cut unchanged. */
  lemma DecodeText<K>(lines: seq<string>, step: Step<K>)
    requires step.kind == Text
    ensures Decode(lines, step) == Ok(Texts(Cut(lines, step.span)))
  {
  }

  /**
   * A plan whose only converting steps are `a < b < c` gets through exactly
   * when those three do, and otherwise raises what the first failing one of
   * them raises.
   */
  lemma RunConversions<K>(lines: seq<string>, plan: seq<Step<K>>, a: nat, b: nat, c: nat)
    requires a < b < c < |plan|
    requires forall j :: 0 <= j < |plan| && j != a && j != b && j != c ==> plan[j].kind == Text
    ensures Run(lines, plan).Ok? <==> Decode(lines, plan[a]).Ok? && Decode(lines, plan[b]).Ok? && Decode(lines, plan[c]).Ok?
    ensures Run(lines, plan).Err? ==>
      Run(lines, plan).error ==
        if Decode(lines, plan[a]).Err? then Decode(lines, plan[a]).error
        else if Decode(lines, plan[b]).Err? then Decode(lines, plan[b]).error
        else Decode(lines, plan[c]).error
  {
    RunSucceeds(lines, plan);
    if Decode(lines, plan[a]).Err? {
      RunFailsAt(lines, plan, a);
    } else if Decode(lines, plan[b]).Err? {
      RunFailsAt(lines, plan, b);
    } else if Decode(lines, plan[c]).Err? {
      RunFailsAt(lines, plan, c);
    }
  }

  /** A run gets through exactly when no step raises. */
  lemma RunSucceeds<K>(lines: seq<string>, plan: seq<Step<K>>)
    ensures Run(lines, plan).Ok? <==> forall j :: 0 <= j < |plan| ==> Decode(lines, plan[j]).Ok?
  {
    ApplySucceeds(|lines|, Names(plan), Decoded(lines, plan));
  }

  /** A step that raises after error-free ones ends the run with its exception. */
  lemma RunFailsAt<K>(lines: seq<string>, plan: seq<Step<K>>, i: nat)
    requires i < |plan| && Decode(lines, plan[i]).Err?
    requires forall j :: 0 <= j < i ==> Decode(lines, plan[j]).Ok?
    ensures Run(lines, plan) == Err(Decode(lines, plan[i]).error)
  {
    var rows, names, columns := |lines|, Names(plan), Decoded(lines, plan);
    ApplySucceeds(rows, names[..i], columns[..i]);
    ApplyStopsAt(rows, names, columns, i);
  }

  /** A converting step stores the converted values, or raises on the first cell `int()` rejects. */
  lemma DecodeConverted<K>(lines: seq<string>, step: Step<K>)
    ensures step.kind == Integer ==>
      Decode(lines, step) ==
        if Converted(lines, step.span).Ok? then Ok(Ints(Converted(lines, step.span).value))
        else Err(IntLiteral(Converted(lines, step.span).error))
    ensures step.kind == Hundredths ==>
      Decode(lines, step) ==
        if Converted(lines, step.span).Ok? then Ok(Floats(Converted(lines, step.span).value))
        else Err(FloatLiteral(Converted(lines, step.span).error))
  {
  }

  /** A plan that converts nothing cannot raise. */
  lemma TextPlanRuns<K>(lines: seq<string>, plan: seq<Step<K>>)
    requires forall i :: 0 <= i < |plan| ==> plan[i].kind == Text
    ensures Run(lines, plan).Ok?
  {
    ApplySucceeds(|lines|, Names(plan), Decoded(lines, plan));
  }

  // ---------------------------------------------------------------------------
  // The builder
  // ---------------------------------------------------------------------------

  /**
   * Creates a frame with one index entry per line and performs the plan's
   * assignments on it in order, stopping at the first conversion that raises.
   */
  method Build<K(==)>(lines: seq<string>, plan: seq<Step<K>>) returns (r: Result<Frame<K>, Error>)
    ensures r.Ok? <==> Run(lines, plan).Ok?
    ensures r.Err? ==> r.error == Run(lines, plan).error
    ensures r.Ok? ==> fresh(r.value) && r.value.Valid() && r.value.Value() == Run(lines, plan).value
  {
    ghost var names, columns := Names(plan), Decoded(lines, plan);
    var df := new Frame(|lines|);
    for i := 0 to |plan|
      invariant fresh(df) && df.Valid()
      invariant Apply(|lines|, names[..i], columns[..i]) == Ok(df.Value())
    {
      assert names[..i + 1][..i] == names[..i] && columns[..i + 1][..i] == columns[..i];
      var c := Decode(lines, plan[i]);
      if c.Err? {
        ApplyStopsAt(|lines|, names, columns, i);
        return Err(c.error);
      }
      df.Set(plan[i].name, c.value);
    }
    assert names[..|plan|] == names && columns[..|plan|] == columns;
    return Ok(df);
  }
}
