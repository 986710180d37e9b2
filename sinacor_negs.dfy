/**
 * The second, stateful reader. Its frames and its layout flag are attributes
 * of the `Negs` class object itself: the nested `get_header` sets the flag
 * `account_more_than_seven_digits`, the nested `get_negs` reads it to decide
 * whether to add the columns of the new layout, and the reader returns the
 * class object with the three frames stored on it.
 */
module SinacorNegs {
  import opened Wrappers
  import opened PyStr
  import opened Frames
  import opened Records
  import H = HeaderRecord
  import T = TradeRecord
  import L = TrailerRecord
  import Reader

  /**
   * The `Negs` dataclass used as a namespace. A frame attribute is `null`
   * until a read assigns it.
   */
  class Negs {
    var header: Frame?<H.Field>
    var negs: Frame?<T.Field>
    var trailer: Frame?<L.Field>
    var accountMoreThanSevenDigits: bool
  }

  /** The layout the flag stands for. */
  function FlagLayout(accountMoreThanSevenDigits: bool): (layout: Layout)
    ensures layout == NewLayout <==> accountMoreThanSevenDigits
  {
    if accountMoreThanSevenDigits then NewLayout else FirstLayout
  }

  /**
   * The nested `get_header`: sets the flag from index 39 of the header line
   * and cuts `reserva` from index 39 when it is set, from index 38 otherwise.
   * The flag ends up the opposite of `check_first_layout`, so the header is the
   * canonical reader's.
   */
  method GetHeader(shared: Negs, txt: NegsTxt) returns (header: Frame<H.Field>)
    modifies shared
    ensures shared.accountMoreThanSevenDigits == !Reader.CheckFirstLayout(txt)
    ensures fresh(header) && header.Valid()
    ensures Reader.Header(txt, Reader.DetectLayout(txt)) == Ok(header.Value())
    ensures shared.header == old(shared.header) && shared.negs == old(shared.negs)
    ensures shared.trailer == old(shared.trailer)
  {
    if Slice(txt.header, 39, 40) == "S" {
      shared.accountMoreThanSevenDigits := true;
      header := Reader.GetHeader(txt, NewLayout);
    } else {
      shared.accountMoreThanSevenDigits := false;
      header := Reader.GetHeader(txt, FirstLayout);
    }
  }

  /**
   * The nested `get_negs`: the trade frame, with the columns of the new layout
   * exactly when the flag is set.
   */
  method GetNegs(shared: Negs, txt: NegsTxt) returns (r: Result<Frame<T.Field>, Error>)
    ensures r.Ok? <==> Reader.Trades(txt, FlagLayout(shared.accountMoreThanSevenDigits)).Ok?
    ensures r.Err? ==> r.error == Reader.Trades(txt, FlagLayout(shared.accountMoreThanSevenDigits)).error
    ensures r.Ok? ==>
      && fresh(r.value) && r.value.Valid()
      && Reader.Trades(txt, FlagLayout(shared.accountMoreThanSevenDigits)) == Ok(r.value.Value())
  {
    if shared.accountMoreThanSevenDigits {
      r := Reader.GetTrades(txt, NewLayout);
    } else {
      r := Reader.GetTrades(txt, FirstLayout);
    }
  }

  /**
   * `read_negs_txt` as written: clears the flag, reads the file, then stores
   * the header (and the flag), the trades and the trailer on `shared` one
   * after the other, and returns `shared` itself. It agrees with the canonical
   * reader on success and on the error raised; when a later step raises, what
   * the earlier steps stored stays stored. There is no path check.
   */
  method ReadNegsTxt(shared: Negs, lines: seq<string>) returns (r: Result<Negs, Error>)
    modifies shared
    ensures r.Ok? <==> Reader.Parse(lines).Ok?
    ensures r.Err? ==> r.error == Reader.Parse(lines).error
    ensures r.Ok? ==> r.value == shared
    ensures shared.accountMoreThanSevenDigits <==> Load(lines).Ok? && !Reader.CheckFirstLayout(Load(lines).value)
    ensures Load(lines).Err? ==> unchanged(shared`header, shared`negs, shared`trailer)
    ensures Load(lines).Ok? ==>
      var txt := Load(lines).value;
      && shared.header != null && fresh(shared.header) && shared.header.Valid()
      && Reader.Header(txt, Reader.DetectLayout(txt)) == Ok(shared.header.Value())
    ensures Load(lines).Ok? && Reader.Trades(Load(lines).value, Reader.DetectLayout(Load(lines).value)).Err? ==>
      unchanged(shared`negs, shared`trailer)
    ensures Load(lines).Ok? && Reader.Trades(Load(lines).value, Reader.DetectLayout(Load(lines).value)).Ok? ==>
      var txt := Load(lines).value;
      && shared.negs != null && fresh(shared.negs) && shared.negs.Valid()
      && Reader.Trades(txt, Reader.DetectLayout(txt)) == Ok(shared.negs.Value())
    ensures Load(lines).Ok? && Reader.Trailer(Load(lines).value).Err? ==> unchanged(shared`trailer)
    ensures r.Ok? ==>
      var report := Reader.Parse(lines).value;
      && shared.negs != null && shared.trailer != null && shared.header != null
      && shared.negs.Valid() && shared.trailer.Valid()
      && fresh(shared.negs) && fresh(shared.trailer)
      && shared.header.Value() == report.header
      && shared.negs.Value() == report.trades
      && shared.trailer.Value() == report.trailer
  {
    shared.accountMoreThanSevenDigits := false;
    var txt :- Load(lines);
    var header := GetHeader(shared, txt);
    shared.header := header;
    var negs :- GetNegs(shared, txt);
    shared.negs := negs;
    var trailer :- Reader.GetTrailer(txt);
    shared.trailer := trailer;
    return Ok(shared);
  }

  /**
   * Reading two files through the same `Negs` class object returns the same
   * object twice: the result of the first read now holds the second file's
   * frames.
   */
  method ReadTwoFilesShared(shared: Negs, first: seq<string>, second: seq<string>)
    returns (r1: Result<Negs, Error>, r2: Result<Negs, Error>)
    requires Reader.Parse(first).Ok? && Reader.Parse(second).Ok?
    modifies shared
    ensures r1.Ok? && r2.Ok? && r1.value == r2.value
    ensures r1.value.header != null && r1.value.header.Value() == Reader.Parse(second).value.header
    ensures Reader.Parse(first).value.header != Reader.Parse(second).value.header ==>
      r1.value.header.Value() != Reader.Parse(first).value.header
  {
    r1 := ReadNegsTxt(shared, first);
    r2 := ReadNegsTxt(shared, second);
  }

  /**
   * `read_negs_txt` with a new `Negs` object per call: the same frames and
   * flag as the shared version, stored on an object no other read can reach.
   */
  method ReadNegsTxtFresh(lines: seq<string>) returns (r: Result<Negs, Error>)
    ensures r.Ok? <==> Reader.Parse(lines).Ok?
    ensures r.Err? ==> r.error == Reader.Parse(lines).error
    ensures r.Ok? ==>
      var negs, report := r.value, Reader.Parse(lines).value;
      && fresh(negs)
      && negs.header != null && negs.negs != null && negs.trailer != null
      && fresh(negs.header) && fresh(negs.negs) && fresh(negs.trailer)
      && negs.header.Valid() && negs.negs.Valid() && negs.trailer.Valid()
      && negs.header.Value() == report.header
      && negs.negs.Value() == report.trades
      && negs.trailer.Value() == report.trailer
      && negs.accountMoreThanSevenDigits == !Reader.CheckFirstLayout(Load(lines).value)
  {
    var negs := new Negs;
    r := ReadNegsTxt(negs, lines);
  }

  /**
   * With a new object per call, two reads return two objects and the first
   * result keeps the first file's frames.
   */
  method ReadTwoFilesFresh(first: seq<string>, second: seq<string>)
    returns (r1: Result<Negs, Error>, r2: Result<Negs, Error>)
    requires Reader.Parse(first).Ok? && Reader.Parse(second).Ok?
    ensures r1.Ok? && r2.Ok? && r1.value != r2.value
    ensures r1.value.header != null && r1.value.header.Value() == Reader.Parse(first).value.header
    ensures r2.value.header != null && r2.value.header.Value() == Reader.Parse(second).value.header
  {
    r1 := ReadNegsTxtFresh(first);
    r2 := ReadNegsTxtFresh(second);
  }
}
