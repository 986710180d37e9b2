/**
 * The canonical decoder: sniff the layout from the header line, build the
 * header, trade and trailer frames by assigning their columns one after the
 * other, normalise the text columns, and gather the three frames.
 */
module Reader {
  import opened Wrappers
  import opened PyStr
  import opened Frames
  import opened Utils
  import opened Records
  import opened Plans
  import H = HeaderRecord
  import T = TradeRecord
  import L = TrailerRecord

  // ---------------------------------------------------------------------------
  // Layout sniff
  // ---------------------------------------------------------------------------

  /**
   * `check_first_layout`: the file uses the first layout unless the header
   * has an "S" at index 39; a header too short to reach index 39 is first layout.
   */
  function CheckFirstLayout(txt: NegsTxt): (first: bool)
    ensures first <==> !(|txt.header| > 39 && txt.header[39] == 'S')
  {
    Slice(txt.header, 39, 40) != "S"
  }

  /** The layout a decoded file is read with. */
  function DetectLayout(txt: NegsTxt): (layout: Layout)
    ensures layout == NewLayout <==> |txt.header| > 39 && txt.header[39] == 'S'
  {
    if CheckFirstLayout(txt) then FirstLayout else NewLayout
  }

  // ---------------------------------------------------------------------------
  // The assignments of each builder, in program order
  // ---------------------------------------------------------------------------

  /** `get_header` up to its layout test. */
  const HeaderCommon: seq<Step<H.Field>> := [
    Step(H.TipoRegistro, (0, 2), Text),
    Step(H.NomeArquivo, (2, 10), Text),
    Step(H.CodigoArquivo, (2, 6), Text),
    Step(H.CodigoUsuario, (6, 10), Text),
    Step(H.CodigoOrigem, (10, 18), Text),
    Step(H.CodigoDestino, (18, 22), Text),
    Step(H.DataGeracao, (22, 30), Text),
    Step(H.DataPregao, (30, 38), Text)]

  /** `get_header`: the common assignments, then `reserva` from the branch the layout selects. */
  function HeaderPlan(layout: Layout): seq<Step<H.Field>> {
    HeaderCommon + [if layout == FirstLayout then Step(H.Reserva, (38, 200), Text) else Step(H.Reserva, (39, 200), Text)]
  }

  /** `get_trades` up to its layout test; `tipo_liquidacao` is assigned twice. */
  const TradeCommon: seq<Step<T.Field>> := [
    Step(T.TipoRegistro, (0, 2), Text),
    Step(T.NumeroNegocioPorCodigoNegociacao, (2, 9), Text),
    Step(T.NaturezaOperacao, (9, 10), Text),
    Step(T.CodigoNegociacao, (10, 22), Text),
    Step(T.TipoMercado, (22, 25), Text),
    Step(T.TipoTransacao, (25, 28), Text),
    Step(T.NomeSociedadeEmissora, (28, 40), Text),
    Step(T.Especificacao, (40, 50), Text),
    Step(T.QuantidadeNegocio, (50, 61), Integer),
    Step(T.PrecoNegocio, (61, 72), Hundredths),
    Step(T.CodigoUsuarioContraparte, (72, 77), Text),
    Step(T.PrazoVencimento, (77, 80), Text),
    Step(T.TipoLiquidacao, (80, 81), Text),
    Step(T.HoraMinutoNegocio, (81, 86), Text),
    Step(T.SituacaoNegocio, (86, 87), Text),
    Step(T.CodigoObjetoPapel, (87, 99), Text),
    Step(T.CodigoCliente, (99, 106), Text),
    Step(T.DigitoCliente, (106, 107), Text),
    Step(T.CodigoIsin, (107, 119), Text),
    Step(T.DistribuicaoIsin, (119, 122), Text),
    Step(T.FatorCotacaoNegocio, (122, 129), Text),
    Step(T.PrecoExercicioSerie, (129, 140), Text),
    Step(T.IndicadorAfterMarket, (140, 141), Text),
    Step(T.Reserva1, (141, 149), Text),
    Step(T.PrazoVencimentoTermo, (149, 154), Text),
    Step(T.Reserva2, (154, 167), Text),
    Step(T.BolsaMovimento, (167, 168), Text),
    Step(T.TipoLiquidacao, (168, 169), Text),
    Step(T.PrazoLiquidacao, (169, 172), Integer),
    Step(T.Reserva3, (172, 198), Text),
    Step(T.TipoOperacaoRecompra, (200, 201), Text)]

  /** The assignments `get_trades` adds for the new layout; the last two overwrite earlier columns. */
  const TradeExtension: seq<Step<T.Field>> := [
    Step(T.FaseGrupoInstrumento, (172, 175), Text),
    Step(T.FaseSessaoNegociacao, (175, 176), Text),
    Step(T.EstadoInstrumento, (176, 180), Text),
    Step(T.CodigoBdi, (180, 184), Text),
    Step(T.CodigoCliente, (184, 193), Text),
    Step(T.Reserva3, (193, 200), Text)]

  /** `get_trades`: the extension runs only when the file is not in the first layout. */
  function TradePlan(layout: Layout): seq<Step<T.Field>> {
    if layout == FirstLayout then TradeCommon else TradeCommon + TradeExtension
  }

  /** `get_trailer`. */
  const TrailerPlan: seq<Step<L.Field>> := [
    Step(L.TipoRegistro, (0, 2), Text),
    Step(L.NomeArquivo, (2, 10), Text),
    Step(L.CodigoArquivo, (2, 6), Text),
    Step(L.CodigoUsuario, (6, 10), Text),
    Step(L.CodigoOrigem, (10, 18), Text),
    Step(L.CodigoDestino, (18, 22), Text),
    Step(L.DataGeracaoArquivo, (22, 30), Text),
    Step(L.TotalRegistrosGerados, (30, 39), Text),
    Step(L.Reserva, (39, 200), Text)]

  // ---------------------------------------------------------------------------
  // The header
  // ---------------------------------------------------------------------------

  /** Header column `f` as cut from the header line, before normalisation. */
  function HeaderCut(line: string, layout: Layout, f: H.Field): Column {
    Texts([Slice(line, H.Offsets(layout, f).0, H.Offsets(layout, f).1)])
  }

  /**
   * `get_header` before normalisation cannot raise, and yields one row with
   * the nine header columns in record order.
   */
  lemma HeaderShape(line: string, layout: Layout)
    ensures Run([line], HeaderPlan(layout)).Ok?
    ensures var t := Run([line], HeaderPlan(layout)).value;
      WellFormed(t) && t.rows == 1 && t.order == H.Columns
  {
    var plan := HeaderPlan(layout);
    HeaderNames(layout);
    TextPlanRuns([line], plan);
    RunShape([line], plan);
  }

  /** The header plan assigns every header column once, in record order, and converts nothing. */
  lemma HeaderNames(layout: Layout)
    ensures Appearance(Names(HeaderPlan(layout))) == H.Columns
    ensures forall i :: 0 <= i < |HeaderPlan(layout)| ==> HeaderPlan(layout)[i].kind == Text
  {
    HeaderNamesAre(layout);
    HeaderColumnsDistinct();
    AppearanceDistinct(Names(HeaderPlan(layout)));
  }

  lemma HeaderNamesAre(layout: Layout)
    ensures Names(HeaderPlan(layout)) == H.Columns
  {
  }

  lemma HeaderColumnsDistinct()
    ensures Distinct(H.Columns)
  {
  }

  /** The header step that decides column `f`: it assigns `f` at the offsets of `f`, and no later step assigns `f`. */
  lemma HeaderFinal(layout: Layout, f: H.Field) returns (k: nat)
    ensures k < |HeaderPlan(layout)| && HeaderPlan(layout)[k] == Step(f, H.Offsets(layout, f), Text)
    ensures forall j :: k < j < |HeaderPlan(layout)| ==> HeaderPlan(layout)[j].name != f
  {
    k := match f
      case TipoRegistro => 0 case NomeArquivo => 1 case CodigoArquivo => 2
      case CodigoUsuario => 3 case CodigoOrigem => 4 case CodigoDestino => 5
      case DataGeracao => 6 case DataPregao => 7 case Reserva => 8;
  }

  /** Every header column is cut from the header line at the offsets of its field. */
  lemma HeaderColumn(line: string, layout: Layout, f: H.Field)
    requires Run([line], HeaderPlan(layout)).Ok?
    ensures f in Run([line], HeaderPlan(layout)).value.data
    ensures Run([line], HeaderPlan(layout)).value.data[f] == HeaderCut(line, layout, f)
  {
    var plan := HeaderPlan(layout);
    var k := HeaderFinal(layout, f);
    RunLast([line], plan, k);
    DecodeText([line], plan[k]);
    assert Cut([line], plan[k].span) == [Slice(line, H.Offsets(layout, f).0, H.Offsets(layout, f).1)];
  }

  // ---------------------------------------------------------------------------
  // The trades
  // ---------------------------------------------------------------------------

  /** The position of the column that assignment `j` of `get_trades` writes. */
  function Slot(j: nat): nat {
    if j <= 26 then j
    else if j == 27 then 12  // tipo_liquidacao again
    else if j <= 34 then j - 1
    else if j == 35 then 16  // codigo_cliente again
    else 28                  // reserva3 again
  }

  /** The conversion assignment `j` of `get_trades` applies. */
  function KindAt(j: nat): Kind {
    if j == 8 || j == 28 then Integer else if j == 9 then Hundredths else Text
  }

  /** Assignment `j` of `get_trades` is overwritten by a later one. */
  predicate Overwritten(layout: Layout, j: nat) {
    j == 12 || (layout == NewLayout && (j == 16 || j == 29))
  }

  /**
   * Assignment `j` before the layout test writes the column at position
   * `Slot(j)` with conversion `KindAt(j)`, cut at the first-layout offsets of
   * that column unless it is overwritten.
   */
  ghost predicate CommonStep(j: nat)
    requires j < |TradeCommon|
  {
    && T.Position(TradeCommon[j].name) == Slot(j) && TradeCommon[j].kind == KindAt(j)
    && (j != 12 ==> TradeCommon[j].span == T.Offsets(FirstLayout, TradeCommon[j].name))
  }

  lemma TradeCommonSteps0()
    ensures forall j :: 0 <= j < 16 ==> CommonStep(j)
  {
  }

  lemma TradeCommonSteps1()
    ensures forall j :: 16 <= j < 24 ==> CommonStep(j)
  {
  }

  lemma TradeCommonSteps2()
    ensures forall j :: 24 <= j < 31 ==> CommonStep(j)
  {
  }

  /** What the new-layout assignments write. */
  lemma TradeExtensionSteps()
    ensures forall j :: 0 <= j < 6 ==>
      && T.Position(TradeExtension[j].name) == Slot(31 + j) && TradeExtension[j].kind == Text
      && TradeExtension[j].span == T.Offsets(NewLayout, TradeExtension[j].name)
  {
  }

  /**
   * Assignment `j` of `get_trades` writes the column at position `Slot(j)`
   * with conversion `KindAt(j)` and, unless a later assignment overwrites it,
   * cuts at that column's offsets for the layout.
   */
  ghost predicate TradeStep(layout: Layout, j: nat)
    requires j < |TradePlan(layout)|
  {
    && T.Position(TradePlan(layout)[j].name) == Slot(j) && TradePlan(layout)[j].kind == KindAt(j)
    && (!Overwritten(layout, j) ==> TradePlan(layout)[j].span == T.Offsets(layout, TradePlan(layout)[j].name))
  }

  lemma TradeSteps(layout: Layout)
    ensures forall j :: 0 <= j < |TradePlan(layout)| ==> TradeStep(layout, j)
  {
    TradeCommonSteps0();
    TradeCommonSteps1();
    TradeCommonSteps2();
    TradeExtensionSteps();
    forall j | 0 <= j < |TradePlan(layout)|
      ensures TradeStep(layout, j)
    {
      if j < |TradeCommon| {
        assert TradePlan(layout)[j] == TradeCommon[j] && CommonStep(j);
      } else {
        assert TradePlan(layout)[j] == TradeExtension[j - 31];
      }
    }
  }

  lemma TradeStepAt(layout: Layout, j: nat)
    requires j < |TradePlan(layout)|
    ensures TradeStep(layout, j)
  {
    TradeSteps(layout);
  }

  /** The assignment that decides the column at position `p`. */
  function FinalSlot(layout: Layout, p: nat): nat {
    if p == 12 then 27
    else if layout == NewLayout && p == 16 then 35
    else if layout == NewLayout && p == 28 then 36
    else if p <= 26 then p
    else p + 1
  }

  /**
   * Column `f` of the trade frame is last assigned by step `FinalSlot`, which
   * cuts it at the offsets of `f` for the layout.
   */
  lemma TradeFinal(layout: Layout, f: T.Field)
    requires T.Position(f) < |T.Columns(layout)|
    ensures var plan, k := TradePlan(layout), FinalSlot(layout, T.Position(f));
      && k < |plan| && plan[k].name == f && plan[k].kind == KindAt(k)
      && plan[k].span == T.Offsets(layout, f)
      && forall j :: k < j < |plan| ==> plan[j].name != f
  {
    var plan, k := TradePlan(layout), FinalSlot(layout, T.Position(f));
    SlotsAfterFinal(layout, T.Position(f));
    TradeStepAt(layout, k);
    T.PositionInjective(plan[k].name, f);
    forall j | k < j < |plan|
      ensures plan[j].name != f
    {
      TradeStepAt(layout, j);
    }
  }

  /** No assignment after the deciding one writes the same position again. */
  lemma SlotsAfterFinal(layout: Layout, p: nat)
    requires p < |T.Columns(layout)|
    ensures var k := FinalSlot(layout, p);
      && k < |TradePlan(layout)| && Slot(k) == p && !Overwritten(layout, k)
      && forall j :: k < j < |TradePlan(layout)| ==> Slot(j) != p
  {
  }

  /** Trade columns whose positions count up from `p` are distinct. */
  lemma PositionsDistinct(s: seq<T.Field>, p: nat)
    requires forall i :: 0 <= i < |s| ==> T.Position(s[i]) == p + i
    ensures Distinct(s)
  {
  }

  /** Trade columns whose positions count up from `p` are the frame's columns from `p` on. */
  lemma ColumnsByPosition(s: seq<T.Field>, p: nat)
    requires p + |s| <= 34 && forall i :: 0 <= i < |s| ==> T.Position(s[i]) == p + i
    ensures s == T.Columns(NewLayout)[p..p + |s|]
  {
    T.Positions0();
    T.Positions1();
    T.Positions2();
    forall i | 0 <= i < |s|
      ensures s[i] == T.Columns(NewLayout)[p + i]
    {
      T.PositionInjective(s[i], T.Columns(NewLayout)[p + i]);
    }
  }

  /** Columns standing before position `p` are none of the columns standing at `p` or after. */
  lemma PositionsSeparate(before: seq<T.Field>, after: seq<T.Field>, p: nat)
    requires forall h :: 0 <= h < |before| ==> T.Position(before[h]) < p
    requires forall i :: 0 <= i < |after| ==> T.Position(after[i]) >= p
    ensures forall i :: 0 <= i < |after| ==> after[i] !in before
  {
  }

  /** The names a trade plan assigns stand at the positions `Slot` gives. */
  ghost predicate SlotsOf(names: seq<T.Field>) {
    forall j :: 0 <= j < |names| ==> T.Position(names[j]) == Slot(j)
  }

  /** The assignments before the layout test keep their columns in first-assignment order. */
  lemma CommonAppearance(names: seq<T.Field>)
    requires |names| == 31 && SlotsOf(names)
    ensures Appearance(names) == names[..27] + names[28..]
  {
    var n1, again, n2 := names[..27], names[27], names[28..];
    PositionsDistinct(n1, 0);
    PositionsDistinct(n2, 27);
    T.PositionInjective(again, n1[12]);
    AppearanceDistinct(n1);
    AppearanceRepeats(n1, [again]);
    PositionsSeparate(n1 + [again], n2, 27);
    AppearanceExtends(n1 + [again], n2);
    assert names == n1 + [again] + n2;
  }

  /** The new-layout assignments append four columns and overwrite two in place. */
  lemma ExtendedAppearance(names: seq<T.Field>)
    requires |names| == 37 && SlotsOf(names)
    ensures Appearance(names) == Appearance(names[..31]) + names[31..35]
  {
    var common, added, repeated := names[..31], names[31..35], names[35..];
    PositionsDistinct(added, 30);
    PositionsSeparate(common, added, 30);
    AppearanceExtends(common, added);
    assert common + added == names[..35];
    forall i | 0 <= i < |repeated|
      ensures repeated[i] in names[..35]
    {
      var h := if i == 0 then 16 else 29;
      assert T.Position(repeated[i]) == Slot(35 + i) == Slot(h);
      T.PositionInjective(repeated[i], names[h]);
      assert names[..35][h] == repeated[i];
    }
    AppearanceRepeats(names[..35], repeated);
    assert names == names[..35] + repeated;
  }

  /** The columns a trade plan keeps are the record's columns, in record order. */
  lemma KeptColumns(names: seq<T.Field>)
    requires |names| == 31 && SlotsOf(names)
    ensures names[..27] + names[28..] == T.BaseColumns
  {
    ColumnsByPosition(names[..27], 0);
    ColumnsByPosition(names[28..], 27);
    assert T.BaseColumns == T.Columns(NewLayout)[..27] + T.Columns(NewLayout)[27..30];
  }

  /** The columns the new-layout assignments add are the four new columns. */
  lemma AddedColumns(names: seq<T.Field>)
    requires |names| == 37 && SlotsOf(names)
    ensures names[31..35] == T.ExtendedColumns
  {
    ColumnsByPosition(names[31..35], 30);
  }

  /**
   * The trade columns come in record order: assigning `tipo_liquidacao`,
   * `codigo_cliente` and `reserva3` again leaves them where they first stood,
   * and the four new-layout columns follow `tipo_operacao_recompra`.
   */
  lemma TradeOrder(layout: Layout)
    ensures Appearance(Names(TradePlan(layout))) == T.Columns(layout)
  {
    var names := Names(TradePlan(layout));
    TradeSteps(layout);
    assert SlotsOf(names) by {
      forall j | 0 <= j < |names| ensures T.Position(names[j]) == Slot(j) {
        assert TradeStep(layout, j);
      }
    }
    if layout == FirstLayout {
      CommonAppearance(names);
      KeptColumns(names);
    } else {
      ExtendedAppearance(names);
      assert SlotsOf(names[..31]);
      CommonAppearance(names[..31]);
      KeptColumns(names[..31]);
      AddedColumns(names);
    }
  }

  /** The conversion `get_trades` applies to column `f`. */
  function Conversion(f: T.Field): (k: Kind)
    ensures k != Text <==> T.IsNumeric(f)
  {
    if f == T.QuantidadeNegocio || f == T.PrazoLiquidacao then Integer
    else if f == T.PrecoNegocio then Hundredths
    else Text
  }

  /**
   * Column `f` of the trade frame holds what the field `f` gives when cut at
   * its final offsets for the layout and converted as `f` is: text columns
   * overwritten later keep only their last cut.
   */
  lemma TradeColumn(lines: seq<string>, layout: Layout, f: T.Field)
    requires Run(lines, TradePlan(layout)).Ok?
    requires T.Position(f) < |T.Columns(layout)|
    ensures f in Run(lines, TradePlan(layout)).value.data
    ensures Decode(lines, Step(f, T.Offsets(layout, f), Conversion(f))) == Ok(Run(lines, TradePlan(layout)).value.data[f])
  {
    var plan, k := TradePlan(layout), FinalSlot(layout, T.Position(f));
    TradeFinal(layout, f);
    ConversionAt(layout, f);
    var step := plan[k];
    assert step == Step(f, T.Offsets(layout, f), Conversion(f));
    RunLast(lines, plan, k);
  }

  /** The deciding assignment of the column at position `p` converts only for positions 8, 9 and 27. */
  lemma FinalKind(layout: Layout, p: nat)
    ensures KindAt(FinalSlot(layout, p)) == if p == 8 || p == 27 then Integer else if p == 9 then Hundredths else Text
  {
  }

  /** The deciding assignment of column `f` applies the conversion of `f`. */
  lemma ConversionAt(layout: Layout, f: T.Field)
    ensures KindAt(FinalSlot(layout, T.Position(f))) == Conversion(f)
  {
    FinalKind(layout, T.Position(f));
    T.NumericPositions();
    if T.Position(f) == 8 {
      T.PositionInjective(f, T.QuantidadeNegocio);
    } else if T.Position(f) == 9 {
      T.PositionInjective(f, T.PrecoNegocio);
    } else if T.Position(f) == 27 {
      T.PositionInjective(f, T.PrazoLiquidacao);
    }
  }

  /** The frame `get_trades` builds, before normalisation, has the trade columns of the layout in record order. */
  lemma TradeShape(lines: seq<string>, layout: Layout)
    requires Run(lines, TradePlan(layout)).Ok?
    ensures var t := Run(lines, TradePlan(layout)).value;
      WellFormed(t) && t.rows == |lines| && t.order == T.Columns(layout)
  {
    RunShape(lines, TradePlan(layout));
    TradeOrder(layout);
  }

  /** Only assignments 8, 9 and 28 convert: quantity, price and settlement term, at their fixed offsets. */
  lemma TradeConversions(layout: Layout)
    ensures var plan := TradePlan(layout);
      && plan[8] == Step(T.QuantidadeNegocio, (50, 61), Integer)
      && plan[9] == Step(T.PrecoNegocio, (61, 72), Hundredths)
      && plan[28] == Step(T.PrazoLiquidacao, (169, 172), Integer)
      && forall j :: 0 <= j < |plan| && j != 8 && j != 9 && j != 28 ==> plan[j].kind == Text
  {
    var plan := TradePlan(layout);
    assert plan[..31] == TradeCommon;
    forall j | 0 <= j < |plan| && j != 8 && j != 9 && j != 28
      ensures plan[j].kind == Text
    {
      TradeStepAt(layout, j);
    }
  }

  /**
   * `get_trades` raises exactly when one of its three conversions does, and
   * then raises what the first of them in program order raises: quantity,
   * then price, then settlement term.
   */
  lemma TradesOutcome(lines: seq<string>, layout: Layout)
    ensures var q, p, z := Converted(lines, (50, 61)), Converted(lines, (61, 72)), Converted(lines, (169, 172));
      && (Run(lines, TradePlan(layout)).Ok? <==> q.Ok? && p.Ok? && z.Ok?)
      && (Run(lines, TradePlan(layout)).Err? ==>
            Run(lines, TradePlan(layout)).error ==
              if q.Err? then IntLiteral(q.error) else if p.Err? then FloatLiteral(p.error) else IntLiteral(z.error))
  {
    TradeConversions(layout);
    RunConversions(lines, TradePlan(layout), 8, 9, 28);
    DecodeConverted(lines, Step(T.QuantidadeNegocio, (50, 61), Integer));
    DecodeConverted(lines, Step(T.PrecoNegocio, (61, 72), Hundredths));
    DecodeConverted(lines, Step(T.PrazoLiquidacao, (169, 172), Integer));
  }

  /** A text column of the trade frame is its field cut from every trade line at its final offsets. */
  lemma TradeTextColumn(lines: seq<string>, layout: Layout, f: T.Field)
    requires Run(lines, TradePlan(layout)).Ok?
    requires T.Position(f) < |T.Columns(layout)| && !T.IsNumeric(f)
    ensures f in Run(lines, TradePlan(layout)).value.data
    ensures Run(lines, TradePlan(layout)).value.data[f] == Texts(Cut(lines, T.Offsets(layout, f)))
  {
    TradeColumn(lines, layout, f);
    DecodeText(lines, Step(f, T.Offsets(layout, f), Text));
  }

  /** A numeric trade column holds its field's conversion: hundredths for the price, integers otherwise. */
  lemma NumericColumn(lines: seq<string>, layout: Layout, f: T.Field)
    requires Run(lines, TradePlan(layout)).Ok? && T.IsNumeric(f)
    ensures f in Run(lines, TradePlan(layout)).value.data
    ensures Converted(lines, T.Offsets(layout, f)).Ok?
    ensures Run(lines, TradePlan(layout)).value.data[f] ==
      if f == T.PrecoNegocio then Floats(Converted(lines, T.Offsets(layout, f)).value)
      else Ints(Converted(lines, T.Offsets(layout, f)).value)
  {
    T.ColumnCount(layout);
    assert T.Position(f) < 30;
    TradeColumn(lines, layout, f);
    DecodeConverted(lines, Step(f, T.Offsets(layout, f), Conversion(f)));
  }

  /** Text column `f`, at position `p` and cut finally at `span`, is where the layout puts it and holds that cut. */
  lemma TradeColumnAt(lines: seq<string>, layout: Layout, f: T.Field, p: nat, span: (nat, nat))
    requires Run(lines, TradePlan(layout)).Ok?
    requires T.Position(f) == p < |T.Columns(layout)| && !T.IsNumeric(f) && T.Offsets(layout, f) == span
    ensures var t := Run(lines, TradePlan(layout)).value;
      && |t.order| > p && t.order[p] == f
      && f in t.data && t.data[f] == Texts(Cut(lines, span))
  {
    TradeShape(lines, layout);
    T.ColumnAt(layout, f);
    TradeTextColumn(lines, layout, f);
  }

  /** `tipo_liquidacao` is assigned twice: from `[80, 81)` by assignment 12 and from `[168, 169)` by assignment 27. */
  lemma SettlementTypeSteps(layout: Layout)
    ensures TradePlan(layout)[12] == Step(T.TipoLiquidacao, (80, 81), Text)
    ensures TradePlan(layout)[27] == Step(T.TipoLiquidacao, (168, 169), Text)
  {
    assert TradePlan(layout)[..31] == TradeCommon;
  }

  /** The `tipo_liquidacao` column keeps the position of its first assignment and the cut of its second. */
  lemma SettlementType(lines: seq<string>, layout: Layout)
    requires Run(lines, TradePlan(layout)).Ok?
    ensures var t := Run(lines, TradePlan(layout)).value;
      && |t.order| > 12 && t.order[12] == T.TipoLiquidacao
      && T.TipoLiquidacao in t.data && t.data[T.TipoLiquidacao] == Texts(Cut(lines, (168, 169)))
  {
    T.ColumnCount(layout);
    T.TextLandmarks();
    T.TextOffsets(layout);
    TradeColumnAt(lines, layout, T.TipoLiquidacao, 12, (168, 169));
  }

  /** `codigo_cliente` is cut from `[184, 193)` in the new layout instead of `[99, 106)`, and stays at position 16. */
  lemma ClientColumn(lines: seq<string>, layout: Layout)
    requires Run(lines, TradePlan(layout)).Ok?
    ensures var t := Run(lines, TradePlan(layout)).value;
      && |t.order| > 16 && t.order[16] == T.CodigoCliente && T.CodigoCliente in t.data
      && t.data[T.CodigoCliente] == Texts(Cut(lines, if layout == FirstLayout then (99, 106) else (184, 193)))
  {
    T.ColumnCount(layout);
    T.TextLandmarks();
    T.TextOffsets(layout);
    TradeColumnAt(lines, layout, T.CodigoCliente, 16, if layout == FirstLayout then (99, 106) else (184, 193));
  }

  /** `reserva3` is cut from `[193, 200)` in the new layout instead of `[172, 198)`, and stays at position 28. */
  lemma ReserveColumn(lines: seq<string>, layout: Layout)
    requires Run(lines, TradePlan(layout)).Ok?
    ensures var t := Run(lines, TradePlan(layout)).value;
      && |t.order| > 28 && t.order[28] == T.Reserva3 && T.Reserva3 in t.data
      && t.data[T.Reserva3] == Texts(Cut(lines, if layout == FirstLayout then (172, 198) else (193, 200)))
  {
    T.ColumnCount(layout);
    T.TextLandmarks();
    T.TextOffsets(layout);
    TradeColumnAt(lines, layout, T.Reserva3, 28, if layout == FirstLayout then (172, 198) else (193, 200));
  }

  /**
   * The four new-layout columns follow `tipo_operacao_recompra` in the new
   * layout and do not exist in the first.
   */
  lemma ExtendedPresence(lines: seq<string>, layout: Layout)
    requires Run(lines, TradePlan(layout)).Ok?
    ensures var t := Run(lines, TradePlan(layout)).value;
      && |t.order| >= 30 && t.order[29] == T.TipoOperacaoRecompra
      && (layout == FirstLayout ==> |t.order| == 30 && forall i :: 0 <= i < 4 ==> T.ExtendedColumns[i] !in t.data)
      && (layout == NewLayout ==> t.order[30..] == T.ExtendedColumns)
  {
    TradeShape(lines, layout);
    T.ColumnCount(layout);
    T.TextLandmarks();
    T.ColumnAt(layout, T.TipoOperacaoRecompra);
    if layout == FirstLayout {
      forall i | 0 <= i < 4
        ensures T.ExtendedColumns[i] !in T.BaseColumns
      {
        T.ExtendedNotBase(i);
      }
    }
  }

  /** The first two new-layout columns are cut from `[172, 175)` and `[175, 176)`. */
  lemma PhaseColumns(lines: seq<string>)
    requires Run(lines, TradePlan(NewLayout)).Ok?
    ensures var t := Run(lines, TradePlan(NewLayout)).value;
      && T.FaseGrupoInstrumento in t.data && t.data[T.FaseGrupoInstrumento] == Texts(Cut(lines, (172, 175)))
      && T.FaseSessaoNegociacao in t.data && t.data[T.FaseSessaoNegociacao] == Texts(Cut(lines, (175, 176)))
  {
    T.ColumnCount(NewLayout);
    T.ExtendedLandmarks();
    T.ExtendedOffsets(NewLayout);
    TradeTextColumn(lines, NewLayout, T.FaseGrupoInstrumento);
    TradeTextColumn(lines, NewLayout, T.FaseSessaoNegociacao);
  }

  /** The last two new-layout columns are cut from `[176, 180)` and `[180, 184)`. */
  lemma StateAndBdiColumns(lines: seq<string>)
    requires Run(lines, TradePlan(NewLayout)).Ok?
    ensures var t := Run(lines, TradePlan(NewLayout)).value;
      && T.EstadoInstrumento in t.data && t.data[T.EstadoInstrumento] == Texts(Cut(lines, (176, 180)))
      && T.CodigoBdi in t.data && t.data[T.CodigoBdi] == Texts(Cut(lines, (180, 184)))
  {
    T.ColumnCount(NewLayout);
    T.ExtendedLandmarks();
    T.ExtendedOffsets(NewLayout);
    TradeTextColumn(lines, NewLayout, T.EstadoInstrumento);
    TradeTextColumn(lines, NewLayout, T.CodigoBdi);
  }

  // ---------------------------------------------------------------------------
  // The trailer
  // ---------------------------------------------------------------------------

  /** Trailer column `f` as cut from the trailer line, before normalisation. */
  function TrailerCut(line: string, f: L.Field): Column {
    Texts([Slice(line, L.Offsets(f).0, L.Offsets(f).1)])
  }

  /**
   * `get_trailer` before normalisation cannot raise, and yields one row with
   * the nine trailer columns in record order, whatever the layout.
   */
  lemma TrailerShape(line: string)
    ensures Run([line], TrailerPlan).Ok?
    ensures var t := Run([line], TrailerPlan).value;
      WellFormed(t) && t.rows == 1 && t.order == L.Columns
  {
    TrailerNames();
    TextPlanRuns([line], TrailerPlan);
    RunShape([line], TrailerPlan);
  }

  /** The trailer plan assigns every trailer column once, in record order, and converts nothing. */
  lemma TrailerNames()
    ensures Appearance(Names(TrailerPlan)) == L.Columns
    ensures forall i :: 0 <= i < |TrailerPlan| ==> TrailerPlan[i].kind == Text
  {
    TrailerNamesAre();
    TrailerColumnsDistinct();
    AppearanceDistinct(Names(TrailerPlan));
  }

  lemma TrailerNamesAre()
    ensures Names(TrailerPlan) == L.Columns
  {
  }

  lemma TrailerColumnsDistinct()
    ensures Distinct(L.Columns)
  {
  }

  /** The trailer step that decides column `f`: it assigns `f` at the offsets of `f`, and no later step assigns `f`. */
  lemma TrailerFinal(f: L.Field) returns (k: nat)
    ensures k < |TrailerPlan| && TrailerPlan[k] == Step(f, L.Offsets(f), Text)
    ensures forall j :: k < j < |TrailerPlan| ==> TrailerPlan[j].name != f
  {
    k := match f
      case TipoRegistro => 0 case NomeArquivo => 1 case CodigoArquivo => 2
      case CodigoUsuario => 3 case CodigoOrigem => 4 case CodigoDestino => 5
      case DataGeracaoArquivo => 6 case TotalRegistrosGerados => 7 case Reserva => 8;
  }

  /** Every trailer column is cut from the trailer line at the offsets of its field, and stays text. */
  lemma TrailerColumn(line: string, f: L.Field)
    requires Run([line], TrailerPlan).Ok?
    ensures f in Run([line], TrailerPlan).value.data
    ensures Run([line], TrailerPlan).value.data[f] == TrailerCut(line, f)
  {
    var k := TrailerFinal(f);
    RunLast([line], TrailerPlan, k);
    DecodeText([line], TrailerPlan[k]);
    assert Cut([line], TrailerPlan[k].span) == [Slice(line, L.Offsets(f).0, L.Offsets(f).1)];
  }

  /** In the header and the trailer, the raw `nome_arquivo` is `codigo_arquivo` followed by `codigo_usuario`. */
  lemma FileNameParts(header: string, layout: Layout, trailer: string)
    ensures HeaderCut(header, layout, H.NomeArquivo).cells[0]
         == HeaderCut(header, layout, H.CodigoArquivo).cells[0] + HeaderCut(header, layout, H.CodigoUsuario).cells[0]
    ensures TrailerCut(trailer, L.NomeArquivo).cells[0]
         == TrailerCut(trailer, L.CodigoArquivo).cells[0] + TrailerCut(trailer, L.CodigoUsuario).cells[0]
  {
    SliceSplit(header, 2, 6, 10);
    SliceSplit(trailer, 2, 6, 10);
  }

  // ---------------------------------------------------------------------------
  // The builders with normalisation, and the whole file
  // ---------------------------------------------------------------------------

  /** `get_header`: the header frame after normalisation. */
  function Header(txt: NegsTxt, layout: Layout): (r: Result<Table<H.Field>, Error>)
    ensures r.Ok? && r.value.rows == 1 && r.value.order == H.Columns
  {
    HeaderShape(txt.header, layout);
    Ok(DropLeftZeros(Run([txt.header], HeaderPlan(layout)).value))
  }

  /** The lines `get_trades` reads (`iloc[:-1]`): every row but the last, and none when there is no row. */
  function TradeLines(txt: NegsTxt): (r: seq<string>)
    ensures |r| == if txt.rows == [] then 0 else |txt.rows| - 1
    ensures forall i :: 0 <= i < |r| ==> r[i] == txt.rows[i]
  {
    if txt.rows == [] then [] else txt.rows[..|txt.rows| - 1]
  }

  /** `get_trades`: the trade frame after normalisation, or the exception a conversion raises. */
  function Trades(txt: NegsTxt, layout: Layout): (r: Result<Table<T.Field>, Error>)
    ensures r.Ok? ==> r.value.rows == |TradeLines(txt)|
  {
    var t :- Run(TradeLines(txt), TradePlan(layout));
    Ok(DropLeftZeros(t))
  }

  /** `get_trailer`: the trailer frame after normalisation, read from the last row (`iloc[-1]`). */
  function Trailer(txt: NegsTxt): (r: Result<Table<L.Field>, Error>)
    ensures r.Err? <==> txt.rows == []
    ensures r.Err? ==> r.error == MissingTrailer
    ensures r.Ok? ==> r.value.rows == 1 && r.value.order == L.Columns
  {
    if txt.rows == [] then Err(MissingTrailer)
    else
      var line := txt.rows[|txt.rows| - 1];
      TrailerShape(line);
      Ok(DropLeftZeros(Run([line], TrailerPlan).value))
  }

  /** The contents of the three frames a decoded file yields. */
  datatype Report = Report(header: Table<H.Field>, trades: Table<T.Field>, trailer: Table<L.Field>)

  /** `read_negs_txt` after its path check, on the lines of the file. */
  function Parse(lines: seq<string>): (r: Result<Report, Error>)
    ensures r.Ok? ==> |lines| >= 2
    ensures r.Ok? ==> r.value.header.rows == 1 && r.value.trailer.rows == 1 && r.value.trades.rows == |lines| - 2
  {
    var txt :- Load(lines);
    var layout := DetectLayout(txt);
    var header := Header(txt, layout).value;
    var trades :- Trades(txt, layout);
    var trailer :- Trailer(txt);
    Ok(Report(header, trades, trailer))
  }

  /** The path check of `read_negs_txt`: the last four characters are ".txt". */
  function IsTxtPath(path: string): (ok: bool)
    ensures ok <==> |path| >= 4 && path[|path| - 4..] == ".txt"
  {
    LastChars(path, 4) == ".txt"
  }

  /** `read_negs_txt`: the path check, then the file's lines decoded. */
  function ReadNegs(path: string, lines: seq<string>): (r: Result<Report, Error>)
    ensures !IsTxtPath(path) ==> r == Err(NotTxtPath)
    ensures IsTxtPath(path) ==> r == Parse(lines)
  {
    if !IsTxtPath(path) then Err(NotTxtPath) else Parse(lines)
  }

  /** After normalisation the header has one row, the nine columns in record order, each cut from the header line. */
  lemma HeaderFields(txt: NegsTxt, layout: Layout, f: H.Field)
    ensures Header(txt, layout).Ok?
    ensures var t := Header(txt, layout).value;
      && WellFormed(t) && t.rows == 1 && t.order == H.Columns && f in t.data
      && t.data[f] == Texts([StripCell(Slice(txt.header, H.Offsets(layout, f).0, H.Offsets(layout, f).1))])
  {
    HeaderShape(txt.header, layout);
    HeaderColumn(txt.header, layout, f);
    DropLeftZerosFrame(Run([txt.header], HeaderPlan(layout)).value);
    NormalizeOneCell(Slice(txt.header, H.Offsets(layout, f).0, H.Offsets(layout, f).1));
  }

  /**
   * The two layouts give the same header except for `reserva`, which starts
   * at index 38 in the first layout and at index 39 in the new one.
   */
  lemma HeaderLayouts(txt: NegsTxt, f: H.Field)
    ensures Header(txt, FirstLayout).Ok? && Header(txt, NewLayout).Ok?
    ensures f in Header(txt, FirstLayout).value.data && f in Header(txt, NewLayout).value.data
    ensures var first, second := Header(txt, FirstLayout).value.data, Header(txt, NewLayout).value.data;
      && (f != H.Reserva ==> first[f] == second[f])
      && (f == H.Reserva ==>
            first[f] == Texts([StripCell(Slice(txt.header, 38, 200))])
            && second[f] == Texts([StripCell(Slice(txt.header, 39, 200))]))
  {
    HeaderFields(txt, FirstLayout, f);
    HeaderFields(txt, NewLayout, f);
    if f == H.Reserva {
      assert H.Offsets(FirstLayout, f) == (38, 200) && H.Offsets(NewLayout, f) == (39, 200);
    } else {
      assert H.Offsets(FirstLayout, f) == H.Offsets(NewLayout, f);
    }
  }

  /** After normalisation the trailer has one row, the nine columns in record order, each cut from the last row. */
  lemma TrailerFields(txt: NegsTxt, f: L.Field)
    requires txt.rows != []
    ensures Trailer(txt).Ok?
    ensures var t, line := Trailer(txt).value, txt.rows[|txt.rows| - 1];
      && WellFormed(t) && t.rows == 1 && t.order == L.Columns && f in t.data
      && t.data[f] == Texts([StripCell(Slice(line, L.Offsets(f).0, L.Offsets(f).1))])
  {
    var line := txt.rows[|txt.rows| - 1];
    TrailerShape(line);
    TrailerColumn(line, f);
    DropLeftZerosFrame(Run([line], TrailerPlan).value);
    NormalizeOneCell(Slice(line, L.Offsets(f).0, L.Offsets(f).1));
  }

  /**
   * After normalisation the trade frame has one row per trade line and the
   * trade columns of the layout in record order; it exists exactly when the
   * three conversions succeed, and otherwise the first failing one, in
   * program order, decides the exception.
   */
  lemma TradesShape(txt: NegsTxt, layout: Layout)
    ensures var lines := TradeLines(txt);
      var q, p, z := Converted(lines, (50, 61)), Converted(lines, (61, 72)), Converted(lines, (169, 172));
      && (Trades(txt, layout).Ok? <==> q.Ok? && p.Ok? && z.Ok?)
      && (Trades(txt, layout).Err? ==>
            Trades(txt, layout).error ==
              if q.Err? then IntLiteral(q.error) else if p.Err? then FloatLiteral(p.error) else IntLiteral(z.error))
      && (Trades(txt, layout).Ok? ==>
            var t := Trades(txt, layout).value;
            WellFormed(t) && t.rows == |lines| && t.order == T.Columns(layout))
  {
    var lines := TradeLines(txt);
    TradesOutcome(lines, layout);
    if Run(lines, TradePlan(layout)).Ok? {
      TradeShape(lines, layout);
      DropLeftZerosShape(Run(lines, TradePlan(layout)).value);
    }
  }

  /** Normalisation leaves a converted column (quantity, price or settlement term) as it was converted. */
  lemma TradesNumbers(txt: NegsTxt, layout: Layout, f: T.Field)
    requires Trades(txt, layout).Ok? && T.IsNumeric(f)
    ensures f in Trades(txt, layout).value.data
    ensures Converted(TradeLines(txt), T.Offsets(layout, f)).Ok?
    ensures Trades(txt, layout).value.data[f] ==
      var values := Converted(TradeLines(txt), T.Offsets(layout, f)).value;
      if f == T.PrecoNegocio then Floats(values) else Ints(values)
  {
    var lines := TradeLines(txt);
    NumericColumn(lines, layout, f);
    TradeShape(lines, layout);
    DropLeftZerosShape(Run(lines, TradePlan(layout)).value);
  }

  /** After normalisation, text cell `i` of trade column `f` is the field cut from trade line `i` and stripped. */
  lemma TradesText(txt: NegsTxt, layout: Layout, f: T.Field, i: nat)
    requires Trades(txt, layout).Ok?
    requires T.Position(f) < |T.Columns(layout)| && !T.IsNumeric(f) && i < |TradeLines(txt)|
    ensures var t := Trades(txt, layout).value;
      && f in t.data && t.data[f].Texts? && i < |t.data[f].cells|
      && t.data[f].cells[i] == StripCell(Slice(txt.rows[i], T.Offsets(layout, f).0, T.Offsets(layout, f).1))
  {
    var lines := TradeLines(txt);
    TradeTextColumn(lines, layout, f);
    TradeShape(lines, layout);
    DropLeftZerosShape(Run(lines, TradePlan(layout)).value);
  }

  /** A decoded file gathers the three frames its builders produce from its lines. */
  lemma ParseParts(lines: seq<string>)
    requires Parse(lines).Ok?
    ensures |lines| >= 2
    ensures var txt := NegsTxt(lines[0], lines[1..]);
      var layout := DetectLayout(txt);
      && Header(txt, layout).Ok? && Trades(txt, layout).Ok? && Trailer(txt).Ok?
      && Parse(lines).value == Report(Header(txt, layout).value, Trades(txt, layout).value, Trailer(txt).value)
  {
    assert Load(lines).value == NegsTxt(lines[0], lines[1..]);
  }

  /** A file with no line fails to load; a file with one line has no line left for the trailer. */
  lemma ParseShortFile(lines: seq<string>)
    ensures |lines| == 0 ==> Parse(lines) == Err(EmptyData)
    ensures |lines| == 1 ==> Parse(lines) == Err(MissingTrailer)
  {
    if |lines| == 1 {
      var txt := Load(lines).value;
      assert txt == NegsTxt(lines[0], []);
      var layout := DetectLayout(txt);
      HeaderFields(txt, layout, H.Reserva);
      assert TradeLines(txt) == [];
      TradesShape(txt, layout);
    }
  }

  /**
   * A file of two lines or more fails exactly when a conversion in a trade
   * line is rejected, and then with the exception of the first rejected
   * conversion in program order: quantity, then price, then settlement term.
   */
  lemma ParseOutcome(lines: seq<string>)
    requires |lines| >= 2
    ensures var trades := lines[1..|lines| - 1];
      var q, p, z := Converted(trades, (50, 61)), Converted(trades, (61, 72)), Converted(trades, (169, 172));
      && (Parse(lines).Ok? <==> q.Ok? && p.Ok? && z.Ok?)
      && (Parse(lines).Err? ==>
            Parse(lines).error ==
              if q.Err? then IntLiteral(q.error) else if p.Err? then FloatLiteral(p.error) else IntLiteral(z.error))
  {
    var txt := NegsTxt(lines[0], lines[1..]);
    TradeLinesOf(lines);
    ParseByTrades(lines);
    TradesOutcome(lines[1..|lines| - 1], DetectLayout(txt));
  }

  /** The trade lines of a file are its lines between the first and the last. */
  lemma TradeLinesOf(lines: seq<string>)
    requires |lines| >= 2
    ensures TradeLines(NegsTxt(lines[0], lines[1..])) == lines[1..|lines| - 1]
  {
  }

  /** With a header and a trailer line present, decoding fails exactly when `get_trades` does, and with its exception. */
  lemma ParseByTrades(lines: seq<string>)
    requires |lines| >= 2
    ensures var txt := NegsTxt(lines[0], lines[1..]);
      var trades := Trades(txt, DetectLayout(txt));
      && (Parse(lines).Ok? <==> trades.Ok?)
      && (Parse(lines).Err? ==> Parse(lines).error == trades.error)
  {
    var txt := Load(lines).value;
    assert txt == NegsTxt(lines[0], lines[1..]);
    HeaderShape(txt.header, DetectLayout(txt));
    TrailerShape(txt.rows[|txt.rows| - 1]);
  }

  /**
   * A decoded file of N lines has N >= 2; its header and trailer frames have
   * one row, its trade frame N - 2, and each frame has its record's columns
   * in record order, the trade columns as the header's layout gives them.
   */
  lemma ParseShape(lines: seq<string>)
    requires Parse(lines).Ok?
    ensures |lines| >= 2
    ensures var r, layout := Parse(lines).value, DetectLayout(NegsTxt(lines[0], lines[1..]));
      && WellFormed(r.header) && r.header.rows == 1 && r.header.order == H.Columns
      && WellFormed(r.trades) && r.trades.rows == |lines| - 2 && r.trades.order == T.Columns(layout)
      && WellFormed(r.trailer) && r.trailer.rows == 1 && r.trailer.order == L.Columns
  {
    ParseParts(lines);
    var txt := NegsTxt(lines[0], lines[1..]);
    var layout := DetectLayout(txt);
    HeaderFields(txt, layout, H.Reserva);
    TradesShape(txt, layout);
    TrailerFields(txt, L.Reserva);
  }

  /** Every header column is cut from line 0 at its offsets for the layout line 0 announces, then normalised. */
  lemma ParseHeader(lines: seq<string>, f: H.Field)
    requires Parse(lines).Ok?
    ensures |lines| >= 1
    ensures var r, layout := Parse(lines).value, DetectLayout(NegsTxt(lines[0], lines[1..]));
      && f in r.header.data
      && r.header.data[f] == Texts([StripCell(Slice(lines[0], H.Offsets(layout, f).0, H.Offsets(layout, f).1))])
  {
    ParseParts(lines);
    var txt := NegsTxt(lines[0], lines[1..]);
    HeaderFields(txt, DetectLayout(txt), f);
  }

  /** Every trailer column is cut from the last line at its fixed offsets, then normalised. */
  lemma ParseTrailer(lines: seq<string>, f: L.Field)
    requires Parse(lines).Ok?
    ensures |lines| >= 2
    ensures var r := Parse(lines).value;
      && f in r.trailer.data
      && r.trailer.data[f] == Texts([StripCell(Slice(lines[|lines| - 1], L.Offsets(f).0, L.Offsets(f).1))])
  {
    ParseParts(lines);
    TrailerFields(NegsTxt(lines[0], lines[1..]), f);
  }

  /**
   * Trade row `i` comes from line `i + 1`: each of its text cells is the
   * field cut from that line at the offsets the layout gives, then normalised.
   */
  lemma ParseTrade(lines: seq<string>, f: T.Field, i: nat)
    requires Parse(lines).Ok? && f in Parse(lines).value.trades.data && !T.IsNumeric(f)
    requires i + 2 < |lines|
    ensures var r, layout := Parse(lines).value, DetectLayout(NegsTxt(lines[0], lines[1..]));
      && r.trades.data[f].Texts? && i < |r.trades.data[f].cells|
      && r.trades.data[f].cells[i] == StripCell(Slice(lines[i + 1], T.Offsets(layout, f).0, T.Offsets(layout, f).1))
  {
    ParseShape(lines);
    ParseParts(lines);
    var txt := NegsTxt(lines[0], lines[1..]);
    var layout := DetectLayout(txt);
    T.InColumns(layout, f);
    TradesText(txt, layout, f, i);
  }

  /**
   * A numeric trade column holds the conversion of its field in lines 1 to
   * N-2; the field's offsets are the same in both layouts.
   */
  lemma ParseNumbers(lines: seq<string>, f: T.Field)
    requires Parse(lines).Ok? && T.IsNumeric(f)
    ensures |lines| >= 2
    ensures f in Parse(lines).value.trades.data
    ensures Converted(lines[1..|lines| - 1], T.Offsets(FirstLayout, f)).Ok?
    ensures Parse(lines).value.trades.data[f] ==
      var values := Converted(lines[1..|lines| - 1], T.Offsets(FirstLayout, f)).value;
      if f == T.PrecoNegocio then Floats(values) else Ints(values)
  {
    ParseParts(lines);
    var txt := NegsTxt(lines[0], lines[1..]);
    assert TradeLines(txt) == lines[1..|lines| - 1];
    assert T.Offsets(DetectLayout(txt), f) == T.Offsets(FirstLayout, f);
    TradesNumbers(txt, DetectLayout(txt), f);
  }

  /**
   * Cell `i` of a numeric trade column is the decimal value of its field in
   * line `i + 1` when that field is all digits; such a field is then not
   * zeros only.
   */
  lemma ParseNumberCell(lines: seq<string>, f: T.Field, i: nat, a: nat, b: nat)
    requires Parse(lines).Ok? && T.IsNumeric(f) && i + 2 < |lines|
    requires T.Offsets(FirstLayout, f) == (a, b) && AllDigits(Slice(lines[i + 1], a, b))
    ensures f in Parse(lines).value.trades.data
    ensures var c, cell := Parse(lines).value.trades.data[f], Slice(lines[i + 1], a, b);
      && !AllAre(cell, '0')
      && (f == T.PrecoNegocio ==> c.Floats? && i < |c.hundredths| && c.hundredths[i] == DecimalValue(cell))
      && (f != T.PrecoNegocio ==> c.Ints? && i < |c.values| && c.values[i] == DecimalValue(cell))
  {
    ParseNumbers(lines, f);
    var trades := lines[1..|lines| - 1];
    assert trades[i] == lines[i + 1];
    ConvertedCell(trades, (a, b), i);
  }

  /**
   * `quantidade_negocio` of trade row `i` is the decimal value of `[50, 61)`
   * of line `i + 1` when that field is all digits; such a field is then not
   * zeros only.
   */
  lemma ParseQuantity(lines: seq<string>, i: nat)
    requires Parse(lines).Ok? && i + 2 < |lines|
    requires AllDigits(Slice(lines[i + 1], 50, 61))
    ensures T.QuantidadeNegocio in Parse(lines).value.trades.data
    ensures var c := Parse(lines).value.trades.data[T.QuantidadeNegocio];
      && c.Ints? && i < |c.values| && c.values[i] == DecimalValue(Slice(lines[i + 1], 50, 61))
      && !AllAre(Slice(lines[i + 1], 50, 61), '0')
  {
    T.NumericOffsets(FirstLayout);
    ParseNumberCell(lines, T.QuantidadeNegocio, i, 50, 61);
  }

  /** `preco_negocio` of trade row `i`, in hundredths, is the decimal value of `[61, 72)` of line `i + 1` when all digits. */
  lemma ParsePrice(lines: seq<string>, i: nat)
    requires Parse(lines).Ok? && i + 2 < |lines|
    requires AllDigits(Slice(lines[i + 1], 61, 72))
    ensures T.PrecoNegocio in Parse(lines).value.trades.data
    ensures var c := Parse(lines).value.trades.data[T.PrecoNegocio];
      && c.Floats? && i < |c.hundredths| && c.hundredths[i] == DecimalValue(Slice(lines[i + 1], 61, 72))
      && !AllAre(Slice(lines[i + 1], 61, 72), '0')
  {
    T.NumericOffsets(FirstLayout);
    ParseNumberCell(lines, T.PrecoNegocio, i, 61, 72);
  }

  /** `prazo_liquidacao` of trade row `i` is the decimal value of `[169, 172)` of line `i + 1` when all digits. */
  lemma ParseSettlementTerm(lines: seq<string>, i: nat)
    requires Parse(lines).Ok? && i + 2 < |lines|
    requires AllDigits(Slice(lines[i + 1], 169, 172))
    ensures T.PrazoLiquidacao in Parse(lines).value.trades.data
    ensures var c := Parse(lines).value.trades.data[T.PrazoLiquidacao];
      && c.Ints? && i < |c.values| && c.values[i] == DecimalValue(Slice(lines[i + 1], 169, 172))
      && !AllAre(Slice(lines[i + 1], 169, 172), '0')
  {
    T.NumericOffsets(FirstLayout);
    ParseNumberCell(lines, T.PrazoLiquidacao, i, 169, 172);
  }

  /**
   * A trade line whose quantity, price or settlement-term field is zeros
   * only (or lies beyond the end of the line) makes decoding fail: the field
   * is stripped to "" and the conversion rejects it.
   */
  lemma ParseRejectsZeros(lines: seq<string>, i: nat)
    requires i + 2 < |lines|
    requires AllAre(Slice(lines[i + 1], 50, 61), '0') || AllAre(Slice(lines[i + 1], 61, 72), '0')
          || AllAre(Slice(lines[i + 1], 169, 172), '0')
    ensures Parse(lines).Err?
  {
    var trades := lines[1..|lines| - 1];
    assert trades[i] == lines[i + 1];
    ParseOutcome(lines);
    if AllAre(Slice(lines[i + 1], 50, 61), '0') {
      ConvertedZeros(trades, (50, 61), i);
    } else if AllAre(Slice(lines[i + 1], 61, 72), '0') {
      ConvertedZeros(trades, (61, 72), i);
    } else {
      ConvertedZeros(trades, (169, 172), i);
    }
  }

  // ---------------------------------------------------------------------------
  // The builders as the program runs them
  // ---------------------------------------------------------------------------

  /** The object `read_negs_txt` returns: the three frames. */
  datatype Negs = Negs(header: Frame<H.Field>, trades: Frame<T.Field>, trailer: Frame<L.Field>)

  /** `get_header`: builds the header frame column by column, then normalises it in place. */
  method GetHeader(txt: NegsTxt, layout: Layout) returns (header: Frame<H.Field>)
    ensures fresh(header) && header.Valid() && Header(txt, layout) == Ok(header.Value())
  {
    HeaderShape(txt.header, layout);
    var built := Build([txt.header], HeaderPlan(layout));
    match built
    case Ok(df) =>
      header := DropLeftZerosDf(df);
  }

  /** `get_trades`: builds the trade frame from every row but the last, then normalises it in place. */
  method GetTrades(txt: NegsTxt, layout: Layout) returns (r: Result<Frame<T.Field>, Error>)
    ensures r.Ok? <==> Trades(txt, layout).Ok?
    ensures r.Err? ==> r.error == Trades(txt, layout).error
    ensures r.Ok? ==> fresh(r.value) && r.value.Valid() && Trades(txt, layout) == Ok(r.value.Value())
  {
    var built := Build(TradeLines(txt), TradePlan(layout));
    if built.Err? {
      return Err(built.error);
    }
    var trades := DropLeftZerosDf(built.value);
    return Ok(trades);
  }

  /** `get_trailer`: builds the trailer frame from the last row, then normalises it in place. */
  method GetTrailer(txt: NegsTxt) returns (r: Result<Frame<L.Field>, Error>)
    ensures r.Ok? <==> Trailer(txt).Ok?
    ensures r.Err? ==> r.error == Trailer(txt).error
    ensures r.Ok? ==> fresh(r.value) && r.value.Valid() && Trailer(txt) == Ok(r.value.Value())
  {
    if txt.rows == [] {
      return Err(MissingTrailer);
    }
    var line := txt.rows[|txt.rows| - 1];
    TrailerShape(line);
    var built := Build([line], TrailerPlan);
    match built
    case Ok(df) =>
      var trailer := DropLeftZerosDf(df);
      return Ok(trailer);
  }

  /**
   * `read_negs_txt`: rejects a path that does not end in ".txt" before
   * anything is read, then decodes the lines of the file into three new frames.
   */
  method ReadNegsTxt(path: string, lines: seq<string>) returns (r: Result<Negs, Error>)
    ensures r.Ok? <==> ReadNegs(path, lines).Ok?
    ensures r.Err? ==> r.error == ReadNegs(path, lines).error
    ensures r.Ok? ==> var negs, report := r.value, ReadNegs(path, lines).value;
      && fresh(negs.header) && fresh(negs.trades) && fresh(negs.trailer)
      && negs.header.Valid() && negs.trades.Valid() && negs.trailer.Valid()
      && negs.header.Value() == report.header && negs.trades.Value() == report.trades
      && negs.trailer.Value() == report.trailer
  {
    if LastChars(path, 4) != ".txt" {
      return Err(NotTxtPath);
    }
    var txt :- Load(lines);
    var first := CheckFirstLayout(txt);
    var layout := if first then FirstLayout else NewLayout;
    var header := GetHeader(txt, layout);
    var trades :- GetTrades(txt, layout);
    var trailer :- GetTrailer(txt);
    return Ok(Negs(header, trades, trailer));
  }
}
