/**
 * The NEGS file as the decoder sees it, and its three fixed-width record
 * layouts. Offsets are half-open `[start, end)` character ranges of a line;
 * each table gives the range the FINAL column is cut from, after every
 * overwriting assignment of the decoder has taken effect.
 */
module Records {
  import opened Wrappers

  /**
   * `FirstLayout` is the layout for accounts of up to 7 digits; `NewLayout`
   * the one for longer accounts, announced by an "S" at index 39 of the header.
   */
  datatype Layout = FirstLayout | NewLayout

  /**
   * What loading the file gives the decoder: the first line becomes the name
   * of the single column, every later line one row of it.
   */
  datatype NegsTxt = NegsTxt(header: string, rows: seq<string>)

  /** The exceptions the decoder ends in. */
  datatype Error =
    | NotTxtPath              // ValueError: the path does not end in ".txt"
    | EmptyData               // the loader finds no line to take a column name from
    | MissingTrailer          // IndexError: no row is left to read the trailer from
    | IntLiteral(raw: string)   // ValueError: int() rejects a zero-stripped cell
    | FloatLiteral(raw: string) // ValueError: float() rejects a zero-stripped cell

  /** Splitting the file's lines into the column name and the rows. */
  function Load(lines: seq<string>): (r: Result<NegsTxt, Error>)
    ensures r.Ok? <==> |lines| >= 1
    ensures r.Ok? ==> [r.value.header] + r.value.rows == lines
  {
    if lines == [] then Err(EmptyData) else Ok(NegsTxt(lines[0], lines[1..]))
  }
}

/** The header record (first line). */
module HeaderRecord {
  import opened Records
  import opened Wrappers

  datatype Field =
    | TipoRegistro | NomeArquivo | CodigoArquivo | CodigoUsuario | CodigoOrigem
    | CodigoDestino | DataGeracao | DataPregao | Reserva

  /** The column name the frame uses. */
  function Name(f: Field): string {
    match f
    case TipoRegistro => "tipo_registro"
    case NomeArquivo => "nome_arquivo"
    case CodigoArquivo => "codigo_arquivo"
    case CodigoUsuario => "codigo_usuario"
    case CodigoOrigem => "codigo_origem"
    case CodigoDestino => "codigo_destino"
    case DataGeracao => "data_geracao"
    case DataPregao => "data_pregao"
    case Reserva => "reserva"
  }

  /** The field a column name stands for, if any. */
  function FieldNamed(name: string): (r: Option<Field>)
    ensures r.Some? ==> Name(r.value) == name
  {
    if name == "tipo_registro" then Some(TipoRegistro)
    else if name == "nome_arquivo" then Some(NomeArquivo)
    else if name == "codigo_arquivo" then Some(CodigoArquivo)
    else if name == "codigo_usuario" then Some(CodigoUsuario)
    else if name == "codigo_origem" then Some(CodigoOrigem)
    else if name == "codigo_destino" then Some(CodigoDestino)
    else if name == "data_geracao" then Some(DataGeracao)
    else if name == "data_pregao" then Some(DataPregao)
    else if name == "reserva" then Some(Reserva)
    else None
  }

  /** Every column name leads back to its field, so no two fields share a name. */
  lemma NameInjective(f: Field, g: Field)
    ensures FieldNamed(Name(f)) == Some(f)
    ensures Name(f) == Name(g) ==> f == g
  {
    assert FieldNamed(Name(g)) == Some(g);
  }

  /** Column order of the header frame, the same in both layouts. */
  const Columns: seq<Field> :=
    [TipoRegistro, NomeArquivo, CodigoArquivo, CodigoUsuario, CodigoOrigem,
     CodigoDestino, DataGeracao, DataPregao, Reserva]

  /** Where each header column is cut from; only `reserva` depends on the layout. */
  function Offsets(layout: Layout, f: Field): (nat, nat) {
    match f
    case TipoRegistro => (0, 2)
    case NomeArquivo => (2, 10)
    case CodigoArquivo => (2, 6)
    case CodigoUsuario => (6, 10)
    case CodigoOrigem => (10, 18)
    case CodigoDestino => (18, 22)
    case DataGeracao => (22, 30)
    case DataPregao => (30, 38)
    case Reserva => if layout == FirstLayout then (38, 200) else (39, 200)
  }
}

/** The trade records (every line between the header and the trailer). */
module TradeRecord {
  import opened Records
  import opened Wrappers

  datatype Field =
    | TipoRegistro | NumeroNegocioPorCodigoNegociacao | NaturezaOperacao | CodigoNegociacao
    | TipoMercado | TipoTransacao | NomeSociedadeEmissora | Especificacao
    | QuantidadeNegocio | PrecoNegocio | CodigoUsuarioContraparte | PrazoVencimento
    | TipoLiquidacao | HoraMinutoNegocio | SituacaoNegocio | CodigoObjetoPapel
    | CodigoCliente | DigitoCliente | CodigoIsin | DistribuicaoIsin
    | FatorCotacaoNegocio | PrecoExercicioSerie | IndicadorAfterMarket | Reserva1
    | PrazoVencimentoTermo | Reserva2 | BolsaMovimento | PrazoLiquidacao
    | Reserva3 | TipoOperacaoRecompra
    | FaseGrupoInstrumento | FaseSessaoNegociacao | EstadoInstrumento | CodigoBdi

  /** The column name the frame uses. */
  function Name(f: Field): string {
    match f
    case TipoRegistro => "tipo_registro"
    case NumeroNegocioPorCodigoNegociacao => "numero_negocio_por_codigo_negociacao"
    case NaturezaOperacao => "natureza_operacao"
    case CodigoNegociacao => "codigo_negociacao"
    case TipoMercado => "tipo_mercado"
    case TipoTransacao => "tipo_transacao"
    case NomeSociedadeEmissora => "nome_sociedade_emissora"
    case Especificacao => "especificacao"
    case QuantidadeNegocio => "quantidade_negocio"
    case PrecoNegocio => "preco_negocio"
    case CodigoUsuarioContraparte => "codigo_usuario_contraparte"
    case PrazoVencimento => "prazo_vencimento"
    case TipoLiquidacao => "tipo_liquidacao"
    case HoraMinutoNegocio => "hora_minuto_negocio"
    case SituacaoNegocio => "situacao_negocio"
    case CodigoObjetoPapel => "codigo_objeto_papel"
    case CodigoCliente => "codigo_cliente"
    case DigitoCliente => "digito_cliente"
    case CodigoIsin => "codigo_isin"
    case DistribuicaoIsin => "distribuicao_isin"
    case FatorCotacaoNegocio => "fator_cotacao_negocio"
    case PrecoExercicioSerie => "preco_exercicio_serie"
    case IndicadorAfterMarket => "indicador_after_market"
    case Reserva1 => "reserva1"
    case PrazoVencimentoTermo => "prazo_vencimento_termo"
    case Reserva2 => "reserva2"
    case BolsaMovimento => "bolsa_movimento"
    case PrazoLiquidacao => "prazo_liquidacao"
    case Reserva3 => "reserva3"
    case TipoOperacaoRecompra => "tipo_operacao_recompra"
    case FaseGrupoInstrumento => "fase_grupo_instrumento"
    case FaseSessaoNegociacao => "fase_sessao_negociacao"
    case EstadoInstrumento => "estado_instrumento"
    case CodigoBdi => "codigo_bdi"
  }

  /**
   * The field a column name stands for, if any. Names are told apart by
   * their length first, then compared with the few names of that length.
   */
  function FieldNamed(name: string): Option<Field> {
    match |name|
    case 8 =>
      if name == "reserva1" then Some(Reserva1)
      else if name == "reserva2" then Some(Reserva2)
      else if name == "reserva3" then Some(Reserva3)
      else None
    case 10 => if name == "codigo_bdi" then Some(CodigoBdi) else None
    case 11 => if name == "codigo_isin" then Some(CodigoIsin) else None
    case 12 => if name == "tipo_mercado" then Some(TipoMercado) else None
    case 13 =>
      if name == "tipo_registro" then Some(TipoRegistro)
      else if name == "especificacao" then Some(Especificacao)
      else if name == "preco_negocio" then Some(PrecoNegocio)
      else None
    case 14 =>
      if name == "tipo_transacao" then Some(TipoTransacao)
      else if name == "codigo_cliente" then Some(CodigoCliente)
      else if name == "digito_cliente" then Some(DigitoCliente)
      else None
    case 15 =>
      if name == "tipo_liquidacao" then Some(TipoLiquidacao)
      else if name == "bolsa_movimento" then Some(BolsaMovimento)
      else None
    case 16 =>
      if name == "prazo_vencimento" then Some(PrazoVencimento)
      else if name == "situacao_negocio" then Some(SituacaoNegocio)
      else if name == "prazo_liquidacao" then Some(PrazoLiquidacao)
      else None
    case 17 =>
      if name == "natureza_operacao" then Some(NaturezaOperacao)
      else if name == "codigo_negociacao" then Some(CodigoNegociacao)
      else if name == "distribuicao_isin" then Some(DistribuicaoIsin)
      else None
    case 18 =>
      if name == "quantidade_negocio" then Some(QuantidadeNegocio)
      else if name == "estado_instrumento" then Some(EstadoInstrumento)
      else None
    case 19 =>
      if name == "hora_minuto_negocio" then Some(HoraMinutoNegocio)
      else if name == "codigo_objeto_papel" then Some(CodigoObjetoPapel)
      else None
    case 21 =>
      if name == "fator_cotacao_negocio" then Some(FatorCotacaoNegocio)
      else if name == "preco_exercicio_serie" then Some(PrecoExercicioSerie)
      else None
    case 22 =>
      if name == "indicador_after_market" then Some(IndicadorAfterMarket)
      else if name == "prazo_vencimento_termo" then Some(PrazoVencimentoTermo)
      else if name == "tipo_operacao_recompra" then Some(TipoOperacaoRecompra)
      else if name == "fase_grupo_instrumento" then Some(FaseGrupoInstrumento)
      else if name == "fase_sessao_negociacao" then Some(FaseSessaoNegociacao)
      else None
    case 23 => if name == "nome_sociedade_emissora" then Some(NomeSociedadeEmissora) else None
    case 26 => if name == "codigo_usuario_contraparte" then Some(CodigoUsuarioContraparte) else None
    case 36 => if name == "numero_negocio_por_codigo_negociacao" then Some(NumeroNegocioPorCodigoNegociacao) else None
    case _ => None
  }

  /** Every column name leads back to its field, so no two fields share a name. */
  lemma NameInjective(f: Field, g: Field)
    ensures FieldNamed(Name(f)) == Some(f)
    ensures Name(f) == Name(g) ==> f == g
  {
    NamedBack1(f); NamedBack2(f); NamedBack3(f); NamedBack4(f); NamedBack5(f); NamedBack6(f);
    NamedBack1(g); NamedBack2(g); NamedBack3(g); NamedBack4(g); NamedBack5(g); NamedBack6(g);
  }

  /** The round trip of `NameInjective`, one slice of the column positions at a time. */
  lemma NamedBack1(f: Field)
    ensures Position(f) < 6 ==> FieldNamed(Name(f)) == Some(f)
  {
    match f
    case TipoRegistro => {}
    case NumeroNegocioPorCodigoNegociacao => {}
    case NaturezaOperacao => {}
    case CodigoNegociacao => {}
    case TipoMercado => {}
    case TipoTransacao => {}
    case _ => {}
  }

  lemma NamedBack2(f: Field)
    ensures 6 <= Position(f) < 12 ==> FieldNamed(Name(f)) == Some(f)
  {
    match f
    case NomeSociedadeEmissora => {}
    case Especificacao => {}
    case QuantidadeNegocio => {}
    case PrecoNegocio => {}
    case CodigoUsuarioContraparte => {}
    case PrazoVencimento => {}
    case _ => {}
  }

  lemma NamedBack3(f: Field)
    ensures 12 <= Position(f) < 18 ==> FieldNamed(Name(f)) == Some(f)
  {
    match f
    case TipoLiquidacao => {}
    case HoraMinutoNegocio => {}
    case SituacaoNegocio => {}
    case CodigoObjetoPapel => {}
    case CodigoCliente => {}
    case DigitoCliente => {}
    case _ => {}
  }

  lemma NamedBack4(f: Field)
    ensures 18 <= Position(f) < 24 ==> FieldNamed(Name(f)) == Some(f)
  {
    match f
    case CodigoIsin => {}
    case DistribuicaoIsin => {}
    case FatorCotacaoNegocio => {}
    case PrecoExercicioSerie => {}
    case IndicadorAfterMarket => {}
    case Reserva1 => {}
    case _ => {}
  }

  lemma NamedBack5(f: Field)
    ensures 24 <= Position(f) < 29 ==> FieldNamed(Name(f)) == Some(f)
  {
    match f
    case PrazoVencimentoTermo => {}
    case Reserva2 => {}
    case BolsaMovimento => {}
    case PrazoLiquidacao => {}
    case Reserva3 => {}
    case _ => {}
  }

  lemma NamedBack6(f: Field)
    ensures 29 <= Position(f) ==> FieldNamed(Name(f)) == Some(f)
  {
    match f
    case TipoOperacaoRecompra => {}
    case FaseGrupoInstrumento => {}
    case FaseSessaoNegociacao => {}
    case EstadoInstrumento => {}
    case CodigoBdi => {}
    case _ => {}
  }

  /** The columns every trade frame has, in order. */
  const BaseColumns: seq<Field> :=
    [TipoRegistro, NumeroNegocioPorCodigoNegociacao, NaturezaOperacao, CodigoNegociacao,
     TipoMercado, TipoTransacao, NomeSociedadeEmissora, Especificacao,
     QuantidadeNegocio, PrecoNegocio, CodigoUsuarioContraparte, PrazoVencimento,
     TipoLiquidacao, HoraMinutoNegocio, SituacaoNegocio, CodigoObjetoPapel,
     CodigoCliente, DigitoCliente, CodigoIsin, DistribuicaoIsin,
     FatorCotacaoNegocio, PrecoExercicioSerie, IndicadorAfterMarket, Reserva1,
     PrazoVencimentoTermo, Reserva2, BolsaMovimento, PrazoLiquidacao,
     Reserva3, TipoOperacaoRecompra]

  /** The four columns only the new layout has, in order. */
  const ExtendedColumns: seq<Field> :=
    [FaseGrupoInstrumento, FaseSessaoNegociacao, EstadoInstrumento, CodigoBdi]

  /** Column order of the trade frame. */
  function Columns(layout: Layout): seq<Field> {
    if layout == FirstLayout then BaseColumns else BaseColumns + ExtendedColumns
  }

  /** The first layout has 30 trade columns, the new one 34. */
  lemma ColumnCount(layout: Layout)
    ensures |Columns(layout)| == if layout == FirstLayout then 30 else 34
  {
  }

  /** Where column `f` stands in the new-layout trade frame; the first-layout frame is its first 30 columns. */
  function Position(f: Field): (i: nat)
    ensures i < 34
  {
    match f
    case TipoRegistro => 0 case NumeroNegocioPorCodigoNegociacao => 1 case NaturezaOperacao => 2
    case CodigoNegociacao => 3 case TipoMercado => 4 case TipoTransacao => 5
    case NomeSociedadeEmissora => 6 case Especificacao => 7 case QuantidadeNegocio => 8
    case PrecoNegocio => 9 case CodigoUsuarioContraparte => 10 case PrazoVencimento => 11
    case TipoLiquidacao => 12 case HoraMinutoNegocio => 13 case SituacaoNegocio => 14
    case CodigoObjetoPapel => 15 case CodigoCliente => 16 case DigitoCliente => 17
    case CodigoIsin => 18 case DistribuicaoIsin => 19 case FatorCotacaoNegocio => 20
    case PrecoExercicioSerie => 21 case IndicadorAfterMarket => 22 case Reserva1 => 23
    case PrazoVencimentoTermo => 24 case Reserva2 => 25 case BolsaMovimento => 26
    case PrazoLiquidacao => 27 case Reserva3 => 28 case TipoOperacaoRecompra => 29
    case FaseGrupoInstrumento => 30 case FaseSessaoNegociacao => 31
    case EstadoInstrumento => 32 case CodigoBdi => 33
  }

  /** Column `f` stands at `Position(f)` in the new-layout order. */
  lemma NewColumnAt(f: Field)
    ensures Columns(NewLayout)[Position(f)] == f
  {
    match f
    case TipoRegistro => case NumeroNegocioPorCodigoNegociacao => case NaturezaOperacao =>
    case CodigoNegociacao => case TipoMercado => case TipoTransacao => case NomeSociedadeEmissora =>
    case Especificacao => case QuantidadeNegocio => case PrecoNegocio =>
    case CodigoUsuarioContraparte => case PrazoVencimento => case TipoLiquidacao =>
    case HoraMinutoNegocio => case SituacaoNegocio => case CodigoObjetoPapel =>
    case CodigoCliente => case DigitoCliente => case CodigoIsin => case DistribuicaoIsin =>
    case FatorCotacaoNegocio => case PrecoExercicioSerie => case IndicadorAfterMarket =>
    case Reserva1 => case PrazoVencimentoTermo => case Reserva2 => case BolsaMovimento =>
    case PrazoLiquidacao => case Reserva3 => case TipoOperacaoRecompra =>
    case FaseGrupoInstrumento => case FaseSessaoNegociacao => case EstadoInstrumento =>
    case CodigoBdi =>
  }

  /** Distinct columns stand at distinct positions. */
  lemma PositionInjective(a: Field, b: Field)
    requires Position(a) == Position(b)
    ensures a == b
  {
    NewColumnAt(a);
    NewColumnAt(b);
  }

  /** The column at each position has that position. */
  lemma Positions0()
    ensures forall i :: 0 <= i < 17 ==> Position(Columns(NewLayout)[i]) == i
  {
  }

  lemma Positions1()
    ensures forall i :: 17 <= i < 26 ==> Position(Columns(NewLayout)[i]) == i
  {
  }

  lemma Positions2()
    ensures forall i :: 26 <= i < 34 ==> Position(Columns(NewLayout)[i]) == i
  {
  }

  /** Each column of a frame stands at its position. */
  lemma ColumnAt(layout: Layout, f: Field)
    requires Position(f) < |Columns(layout)|
    ensures Columns(layout)[Position(f)] == f
  {
    NewColumnAt(f);
    assert Columns(layout)[Position(f)] == Columns(NewLayout)[Position(f)];
  }

  /** None of the four new-layout columns is a column of the first layout. */
  lemma ExtendedNotBase(i: nat)
    requires i < 4
    ensures ExtendedColumns[i] !in BaseColumns
  {
    Positions0();
    Positions1();
    Positions2();
    var f := ExtendedColumns[i];
    assert f == Columns(NewLayout)[30 + i];
    forall h | 0 <= h < 30
      ensures BaseColumns[h] != f
    {
      assert BaseColumns[h] == Columns(NewLayout)[h];
    }
  }

  /** A column of a frame has a position within that frame. */
  lemma InColumns(layout: Layout, f: Field)
    requires f in Columns(layout)
    ensures Position(f) < |Columns(layout)|
  {
    if layout == FirstLayout {
      var h :| 0 <= h < 30 && BaseColumns[h] == f;
      assert BaseColumns[h] == Columns(NewLayout)[h];
      if h < 17 { Positions0(); } else if h < 26 { Positions1(); } else { Positions2(); }
    }
  }

  /** The columns converted to numbers instead of kept as text. */
  predicate IsNumeric(f: Field) {
    f == QuantidadeNegocio || f == PrecoNegocio || f == PrazoLiquidacao
  }

  /** The three numeric columns are cut at the same offsets in both layouts. */
  lemma NumericOffsets(layout: Layout)
    ensures IsNumeric(QuantidadeNegocio) && Offsets(layout, QuantidadeNegocio) == (50, 61)
    ensures IsNumeric(PrecoNegocio) && Offsets(layout, PrecoNegocio) == (61, 72)
    ensures IsNumeric(PrazoLiquidacao) && Offsets(layout, PrazoLiquidacao) == (169, 172)
  {
  }

  /** Positions of the three numeric columns. */
  lemma NumericPositions()
    ensures Position(QuantidadeNegocio) == 8 && Position(PrecoNegocio) == 9 && Position(PrazoLiquidacao) == 27
  {
  }

  /** Positions of the text columns the two layouts treat differently. */
  lemma TextLandmarks()
    ensures Position(TipoLiquidacao) == 12 && !IsNumeric(TipoLiquidacao)
    ensures Position(CodigoCliente) == 16 && !IsNumeric(CodigoCliente)
    ensures Position(Reserva3) == 28 && !IsNumeric(Reserva3)
    ensures Position(TipoOperacaoRecompra) == 29
  {
  }

  /** Positions of the four new-layout columns. */
  lemma ExtendedLandmarks()
    ensures Position(FaseGrupoInstrumento) == 30 && Position(FaseSessaoNegociacao) == 31
    ensures Position(EstadoInstrumento) == 32 && Position(CodigoBdi) == 33
    ensures !IsNumeric(FaseGrupoInstrumento) && !IsNumeric(FaseSessaoNegociacao)
    ensures !IsNumeric(EstadoInstrumento) && !IsNumeric(CodigoBdi)
  {
  }

  /** Final offsets of the text columns the two layouts treat differently. */
  lemma TextOffsets(layout: Layout)
    ensures Offsets(layout, TipoLiquidacao) == (168, 169)
    ensures Offsets(layout, CodigoCliente) == if layout == FirstLayout then (99, 106) else (184, 193)
    ensures Offsets(layout, Reserva3) == if layout == FirstLayout then (172, 198) else (193, 200)
  {
  }

  /** Offsets of the four new-layout columns. */
  lemma ExtendedOffsets(layout: Layout)
    ensures Offsets(layout, FaseGrupoInstrumento) == (172, 175)
    ensures Offsets(layout, FaseSessaoNegociacao) == (175, 176)
    ensures Offsets(layout, EstadoInstrumento) == (176, 180)
    ensures Offsets(layout, CodigoBdi) == (180, 184)
  {
  }

  /** Where each trade column is finally cut from. */
  function Offsets(layout: Layout, f: Field): (nat, nat) {
    match f
    case TipoRegistro => (0, 2)
    case NumeroNegocioPorCodigoNegociacao => (2, 9)
    case NaturezaOperacao => (9, 10)
    case CodigoNegociacao => (10, 22)
    case TipoMercado => (22, 25)
    case TipoTransacao => (25, 28)
    case NomeSociedadeEmissora => (28, 40)
    case Especificacao => (40, 50)
    case QuantidadeNegocio => (50, 61)
    case PrecoNegocio => (61, 72)
    case CodigoUsuarioContraparte => (72, 77)
    case PrazoVencimento => (77, 80)
    case TipoLiquidacao => (168, 169)
    case HoraMinutoNegocio => (81, 86)
    case SituacaoNegocio => (86, 87)
    case CodigoObjetoPapel => (87, 99)
    case CodigoCliente => if layout == FirstLayout then (99, 106) else (184, 193)
    case DigitoCliente => (106, 107)
    case CodigoIsin => (107, 119)
    case DistribuicaoIsin => (119, 122)
    case FatorCotacaoNegocio => (122, 129)
    case PrecoExercicioSerie => (129, 140)
    case IndicadorAfterMarket => (140, 141)
    case Reserva1 => (141, 149)
    case PrazoVencimentoTermo => (149, 154)
    case Reserva2 => (154, 167)
    case BolsaMovimento => (167, 168)
    case PrazoLiquidacao => (169, 172)
    case Reserva3 => if layout == FirstLayout then (172, 198) else (193, 200)
    case TipoOperacaoRecompra => (200, 201)
    case FaseGrupoInstrumento => (172, 175)
    case FaseSessaoNegociacao => (175, 176)
    case EstadoInstrumento => (176, 180)
    case CodigoBdi => (180, 184)
  }
}

/** The trailer record (last line); its layout does not depend on the header. */
module TrailerRecord {
  import opened Wrappers

  datatype Field =
    | TipoRegistro | NomeArquivo | CodigoArquivo | CodigoUsuario | CodigoOrigem
    | CodigoDestino | DataGeracaoArquivo | TotalRegistrosGerados | Reserva

  /** The column name the frame uses. */
  function Name(f: Field): string {
    match f
    case TipoRegistro => "tipo_registro"
    case NomeArquivo => "nome_arquivo"
    case CodigoArquivo => "codigo_arquivo"
    case CodigoUsuario => "codigo_usuario"
    case CodigoOrigem => "codigo_origem"
    case CodigoDestino => "codigo_destino"
    case DataGeracaoArquivo => "data_geracao_arquivo"
    case TotalRegistrosGerados => "total_registros_gerados"
    case Reserva => "reserva"
  }

  /** The field a column name stands for, if any. */
  function FieldNamed(name: string): (r: Option<Field>)
    ensures r.Some? ==> Name(r.value) == name
  {
    if name == "tipo_registro" then Some(TipoRegistro)
    else if name == "nome_arquivo" then Some(NomeArquivo)
    else if name == "codigo_arquivo" then Some(CodigoArquivo)
    else if name == "codigo_usuario" then Some(CodigoUsuario)
    else if name == "codigo_origem" then Some(CodigoOrigem)
    else if name == "codigo_destino" then Some(CodigoDestino)
    else if name == "data_geracao_arquivo" then Some(DataGeracaoArquivo)
    else if name == "total_registros_gerados" then Some(TotalRegistrosGerados)
    else if name == "reserva" then Some(Reserva)
    else None
  }

  /** Every column name leads back to its field, so no two fields share a name. */
  lemma NameInjective(f: Field, g: Field)
    ensures FieldNamed(Name(f)) == Some(f)
    ensures Name(f) == Name(g) ==> f == g
  {
    assert FieldNamed(Name(g)) == Some(g);
  }

  /** Column order of the trailer frame. */
  const Columns: seq<Field> :=
    [TipoRegistro, NomeArquivo, CodigoArquivo, CodigoUsuario, CodigoOrigem,
     CodigoDestino, DataGeracaoArquivo, TotalRegistrosGerados, Reserva]

  /** Where each trailer column is cut from. */
  function Offsets(f: Field): (nat, nat) {
    match f
    case TipoRegistro => (0, 2)
    case NomeArquivo => (2, 10)
    case CodigoArquivo => (2, 6)
    case CodigoUsuario => (6, 10)
    case CodigoOrigem => (10, 18)
    case CodigoDestino => (18, 22)
    case DataGeracaoArquivo => (22, 30)
    case TotalRegistrosGerados => (30, 39)
    case Reserva => (39, 200)
  }
}
