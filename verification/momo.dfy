/** The Momo buyer (buyer/momo.py): the product code cut out of the URL, the
    credential gate, and the decisions `check_product` takes on the page
    snapshot and on the record the page script returns. */
module Momo {
  import opened Wrappers
  import opened Text
  import opened Environment
  import opened BuyErrors
  import opened PriceText

  const ICodeMarker := "i_code="
  const UsernameKey := "MOMO_USERNAME"
  const PasswordKey := "MOMO_PASSWORD"
  const CredentialKeys := [UsernameKey, PasswordKey]

  // ---------------------------------------------------------------------
  // The product code
  // ---------------------------------------------------------------------

  /** `code` is a prefix of `tail` that stops at the end of `tail`, at an "&",
      or at another "i_code=" */
  predicate StopsAtDelimiter(tail: string, code: string) {
    && code <= tail
    && (|code| == |tail| || OccursAt(tail, "&", |code|) || OccursAt(tail, ICodeMarker, |code|))
  }

  /** A prefix of a string free of `pat` is free of `pat` too */
  lemma PrefixKeepsFree(t: string, s: string, pat: string)
    requires t <= s && !Contains(s, pat)
    ensures !Contains(t, pat)
  {
    assert t == s[..|t|];
    forall j: nat ensures !OccursAt(t, pat, j) {
      OccursInPrefix(s, pat, |t|, j);
    }
  }

  /** `url.split('i_code=')[1].split('&')[0]`; the IndexError raised when the
      marker is missing becomes ProductCodeNotFound */
  function ExtractICode(url: string): (r: Result<string, BuyError>)
    ensures r.Failure? <==> !Contains(url, ICodeMarker)
    ensures r.Failure? ==> r.error == ProductCodeNotFound
    ensures r.Success? ==> !Contains(r.value, "&") && !Contains(r.value, ICodeMarker)
    ensures r.Success? ==>
      && IndexOf(url, ICodeMarker).Some?
      && StopsAtDelimiter(url[IndexOf(url, ICodeMarker).value + |ICodeMarker|..], r.value)
  {
    var parts := Split(url, ICodeMarker);
    if |parts| < 2 then Failure(ProductCodeNotFound)
    else
      SplitPieces(url, ICodeMarker);
      var tail := url[IndexOf(url, ICodeMarker).value + |ICodeMarker|..];
      var piece := parts[1];
      assert piece == Before(tail, ICodeMarker);
      var code := Before(piece, "&");
      PrefixKeepsFree(code, piece, ICodeMarker);
      assert piece == tail[..|piece|];
      OccursInPrefix(tail, "&", |piece|, |code|);
      Success(code)
  }

  /** "i_code=" ends with a character that appears nowhere else in it, and
      holds no "&" */
  lemma MarkerShape()
    ensures ICodeMarker[|ICodeMarker| - 1] !in ICodeMarker[..|ICodeMarker| - 1]
    ensures '&' !in ICodeMarker
  {
    assert ICodeMarker[..6] == "i_code";
  }

  /** In `c + s` with `c` free of "&" and "i_code=" and `s` empty or starting
      with "&", neither delimiter starts inside `c`. */
  lemma NoDelimiterInsideCode(c: string, s: string, k: nat)
    requires !Contains(c, "&") && !Contains(c, ICodeMarker)
    requires s == [] || s[0] == '&'
    requires k < |c|
    ensures !OccursAt(c + s, "&", k) && !OccursAt(c + s, ICodeMarker, k)
  {
    var tail := c + s;
    MarkerShape();
    OccursAtChar(tail, '&', k);
    OccursAtChar(c, '&', k);
    assert tail[k] == c[k];
    if k + |ICodeMarker| <= |c| {
      assert tail[k..k + |ICodeMarker|] == c[k..k + |ICodeMarker|];
      assert !OccursAt(c, ICodeMarker, k);
    } else if k + |ICodeMarker| <= |tail| {
      assert tail[k..k + |ICodeMarker|][|c| - k] == tail[|c|] == '&';
      assert ICodeMarker[|c| - k] in ICodeMarker;
    }
  }

  /** Round trip: a code placed after the first "i_code=" of a URL, and
      followed by nothing or by "&...", is exactly what is extracted. An empty
      code at the end of the URL yields "" rather than an error. */
  lemma ExtractICodeRoundTrip(p: string, c: string, s: string)
    requires !Contains(p, ICodeMarker)
    requires !Contains(c, "&") && !Contains(c, ICodeMarker)
    requires s == [] || s[0] == '&'
    ensures ExtractICode(p + ICodeMarker + c + s) == Success(c)
  {
    var url := p + ICodeMarker + c + s;
    MarkerShape();
    assert url == p + ICodeMarker + (c + s);
    IndexOfAfterPatternFreePrefix(p, ICodeMarker, c + s);
    var tail := url[|p| + |ICodeMarker|..];
    assert tail == c + s;
    var code := ExtractICode(url).value;
    forall k: nat | k < |c|
      ensures !OccursAt(tail, "&", k) && !OccursAt(tail, ICodeMarker, k)
    {
      NoDelimiterInsideCode(c, s, k);
    }
    assert |code| > |c| ==> code[|c|] == '&';
    ContainsChar(code, '&');
    assert |code| == |c|;
    assert code == tail[..|c|] == c;
  }

  // ---------------------------------------------------------------------
  // Credentials and construction
  // ---------------------------------------------------------------------

  datatype Credentials = Credentials(username: string, password: string)

  /** `_load_credentials`: both variables must be set and non-empty */
  function LoadCredentials(env: Env): (r: Result<Credentials, BuyError>)
    ensures r.Success? <==> AllSet(env, CredentialKeys)
    ensures r.Failure? ==> r.error == CredentialsMissing(CredentialKeys)
    ensures r.Success? ==>
      GetEnv(env, UsernameKey) == Some(r.value.username) && GetEnv(env, PasswordKey) == Some(r.value.password)
  {
    var username := GetEnv(env, UsernameKey);
    var password := GetEnv(env, PasswordKey);
    AllSetPair(env, UsernameKey, PasswordKey);
    if !IsSet(username) || !IsSet(password) then Failure(CredentialsMissing(CredentialKeys))
    else Success(Credentials(username.value, password.value))
  }

  /** A constructed Momo buyer: its URL, its credentials and its product code */
  datatype MomoBuyer = MomoBuyer(url: string, credentials: Credentials, iCode: string)

  /** `MomoBuyer(url, page)`: the base constructor loads the credentials, then
      the product code is extracted */
  function NewBuyer(url: string, env: Env): (r: Result<MomoBuyer, BuyError>)
    ensures !AllSet(env, CredentialKeys) ==> r == Failure(CredentialsMissing(CredentialKeys))
    ensures AllSet(env, CredentialKeys) && !Contains(url, ICodeMarker) ==> r == Failure(ProductCodeNotFound)
    ensures r.Success? <==> AllSet(env, CredentialKeys) && Contains(url, ICodeMarker)
    ensures r.Success? ==>
      && r.value.url == url
      && Success(r.value.credentials) == LoadCredentials(env)
      && Success(r.value.iCode) == ExtractICode(url)
  {
    var credentials :- LoadCredentials(env);
    var iCode :- ExtractICode(url);
    Success(MomoBuyer(url, credentials, iCode))
  }

  // ---------------------------------------------------------------------
  // The page snapshot and the page script's decisions
  // ---------------------------------------------------------------------

  /** An element the script looks up: absent, or present with its computed
      CSS `display` value */
  datatype Element = Missing | Found(display: string)

  /** One `.prdPrice li` row: its whole text and, when it has a `.seoPrice`
      child, that child's text */
  datatype PriceRow = PriceRow(text: string, seoPrice: Option<string>)

  /** What the page script reads: the trimmed text of `#osmGoodsName` (None
      when the element is absent), the price rows in document order, and the
      `#buy_yes` / `#buy_no` elements */
  datatype Snapshot = Snapshot(name: Option<string>, priceRows: seq<PriceRow>, buyYes: Element, buyNo: Element)

  datatype PriceKind = Original | Sale | Final

  /** The three price slots of the returned record */
  datatype Prices = Prices(original: Option<JsNumber>, sale: Option<JsNumber>, final: Option<JsNumber>)

  /** The record `check_product` returns */
  datatype ProductInfo = ProductInfo(name: Option<string>, price: Prices, canBuy: bool, iCode: Option<string>)

  const OriginalLabel := "\U{5E02}\U{552E}\U{50F9}"            // market price
  const SaleLabel := "\U{4FC3}\U{92B7}\U{50F9}"                // promotional price
  const FinalLabel := "\U{6298}\U{6263}\U{5F8C}\U{50F9}\U{683C}" // price after discount

  /** The slot a row writes, if any: rows without a `.seoPrice` child are
      skipped, and the labels are tried in a fixed order */
  function RowKind(row: PriceRow): Option<PriceKind> {
    if row.seoPrice.None? then None
    else if Contains(row.text, OriginalLabel) then Some(Original)
    else if Contains(row.text, SaleLabel) then Some(Sale)
    else if Contains(row.text, FinalLabel) then Some(Final)
    else None
  }

  function Slot(p: Prices, k: PriceKind): Option<JsNumber> {
    match k
    case Original => p.original
    case Sale => p.sale
    case Final => p.final
  }

  /** One iteration of `priceElements.forEach` */
  function ScanRow(acc: Prices, row: PriceRow): (r: Prices)
    ensures forall k :: RowKind(row) != Some(k) ==> Slot(r, k) == Slot(acc, k)
    ensures RowKind(row).Some? ==> Slot(r, RowKind(row).value) == Some(ParsePrice(row.seoPrice.value))
  {
    match RowKind(row)
    case None => acc
    case Some(Original) => acc.(original := Some(ParsePrice(row.seoPrice.value)))
    case Some(Sale) => acc.(sale := Some(ParsePrice(row.seoPrice.value)))
    case Some(Final) => acc.(final := Some(ParsePrice(row.seoPrice.value)))
  }

  /** `priceElements.forEach(...)`, rows taken in document order */
  function ScanRows(acc: Prices, rows: seq<PriceRow>): Prices
    decreases |rows|
  {
    if |rows| == 0 then acc else ScanRows(ScanRow(acc, rows[0]), rows[1..])
  }

  /** Reference reading of the price loop: the price of the last row that
      writes slot `k`, or None if no row does */
  function LastPriceOf(rows: seq<PriceRow>, k: PriceKind): Option<JsNumber> {
    if |rows| == 0 then None
    else if RowKind(rows[|rows| - 1]) == Some(k) then Some(ParsePrice(rows[|rows| - 1].seoPrice.value))
    else LastPriceOf(rows[..|rows| - 1], k)
  }

  /** The last writer of a slot, seen from the front: the rest of the rows
      win over the first row */
  lemma {:induction false} LastPriceOfCons(rows: seq<PriceRow>, k: PriceKind)
    requires |rows| > 0
    ensures LastPriceOf(rows, k) ==
      if LastPriceOf(rows[1..], k).Some? then LastPriceOf(rows[1..], k)
      else if RowKind(rows[0]) == Some(k) then Some(ParsePrice(rows[0].seoPrice.value))
      else None
  {
    if |rows| > 1 {
      var init := rows[..|rows| - 1];
      assert init[1..] == rows[1..][..|rows[1..]| - 1];
      assert init[0] == rows[0];
      LastPriceOfCons(init, k);
    } else {
      assert rows[1..] == [];
      assert rows[..0] == [];
    }
  }

  /** The loop leaves in each slot the price of the last row writing it, and
      the starting value when no row does. */
  lemma {:induction false} ScanRowsKeepsLastPrice(acc: Prices, rows: seq<PriceRow>, k: PriceKind)
    ensures Slot(ScanRows(acc, rows), k) ==
      if LastPriceOf(rows, k).Some? then LastPriceOf(rows, k) else Slot(acc, k)
    decreases |rows|
  {
    if |rows| > 0 {
      ScanRowsKeepsLastPrice(ScanRow(acc, rows[0]), rows[1..], k);
      LastPriceOfCons(rows, k);
    }
  }

  /** `can_buy` as the page script computes it: first from `#buy_yes`, then,
      if still false, from `#buy_no` */
  function CanBuy(buyYes: Element, buyNo: Element): (r: bool)
    ensures r <==> (buyYes.Found? && buyYes.display != "none") || (buyNo.Found? && buyNo.display == "none")
  {
    var afterYes := if buyYes.Found? then buyYes.display != "none" else false;
    if !afterYes && buyNo.Found? then buyNo.display == "none" else afterYes
  }

  /** The record the page script returns */
  function Evaluate(page: Snapshot): (info: ProductInfo)
    ensures info.name == page.name && info.iCode == None
    ensures forall k :: Slot(info.price, k) == LastPriceOf(page.priceRows, k)
    ensures info.canBuy <==> (page.buyYes.Found? && page.buyYes.display != "none") || (page.buyNo.Found? && page.buyNo.display == "none")
  {
    var prices := ScanRows(Prices(None, None, None), page.priceRows);
    forall k ensures Slot(prices, k) == LastPriceOf(page.priceRows, k) {
      ScanRowsKeepsLastPrice(Prices(None, None, None), page.priceRows, k);
    }
    ProductInfo(page.name, prices, CanBuy(page.buyYes, page.buyNo), None)
  }

  // ---------------------------------------------------------------------
  // Post-processing in check_product
  // ---------------------------------------------------------------------

  /** Python's `any(product_info['price'].values())` */
  predicate AnyPrice(p: Prices) {
    Truthy(p.original) || Truthy(p.sale) || Truthy(p.final)
  }

  /** After the page script: stamp the product code, reject a missing name,
      then reject a record without any usable price */
  function PostProcess(info: ProductInfo, iCode: string): (r: Result<ProductInfo, BuyError>)
    ensures !IsSet(info.name) ==> r == Failure(ProductNameMissing)
    ensures IsSet(info.name) && !AnyPrice(info.price) ==> r == Failure(ProductPriceMissing)
    ensures r.Success? <==> IsSet(info.name) && AnyPrice(info.price)
    ensures r.Success? ==> r.value == info.(iCode := Some(iCode))
  {
    var stamped := info.(iCode := Some(iCode));
    if !IsSet(stamped.name) then Failure(ProductNameMissing)
    else if !AnyPrice(stamped.price) then Failure(ProductPriceMissing)
    else Success(stamped)
  }

  /** `check_product` on a page snapshot */
  function CheckProduct(buyer: MomoBuyer, page: Snapshot): (r: Result<ProductInfo, BuyError>)
    ensures !IsSet(page.name) ==> r == Failure(ProductNameMissing)
    ensures r.Success? ==>
      && r.value.name == page.name && IsSet(r.value.name)
      && r.value.iCode == Some(buyer.iCode)
      && AnyPrice(r.value.price)
      && (forall k :: Slot(r.value.price, k) == LastPriceOf(page.priceRows, k))
      && (r.value.canBuy <==> (page.buyYes.Found? && page.buyYes.display != "none") || (page.buyNo.Found? && page.buyNo.display == "none"))
  {
    PostProcess(Evaluate(page), buyer.iCode)
  }

  /** A page whose every price row is absent or zero is rejected once it has a
      name */
  lemma NoPriceRejected(buyer: MomoBuyer, page: Snapshot)
    requires IsSet(page.name)
    requires forall k :: !Truthy(LastPriceOf(page.priceRows, k))
    ensures CheckProduct(buyer, page) == Failure(ProductPriceMissing)
  {
    var info := Evaluate(page);
    assert !Truthy(Slot(info.price, Original)) && !Truthy(Slot(info.price, Sale)) && !Truthy(Slot(info.price, Final));
  }
}
