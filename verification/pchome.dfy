/** The PChome buyer (buyer/pchome.py): the lenient credential loader and the
    decisions `check_product` takes on the page snapshot and on the record the
    page script returns. */
module PChome {
  import opened Wrappers
  import opened Text
  import opened Environment
  import opened BuyErrors
  import opened PriceText

  const UsernameKey := "PCHOME_USERNAME"
  const PasswordKey := "PCHOME_PASSWORD"
  const CvcKey := "PAYMENT_INFO_CVC"
  const LoginKeys := [UsernameKey, PasswordKey]
  const PaymentKeys := [CvcKey]

  // ---------------------------------------------------------------------
  // Credentials and construction
  // ---------------------------------------------------------------------

  datatype Credentials = Credentials(username: string, password: string, cvc: string)

  /** `_load_credentials`: without a `.env` file it only warns and loads
      nothing; with one, the login pair is checked before the card's CVC */
  function LoadCredentials(env: Env): (r: Result<Option<Credentials>, BuyError>)
    ensures !env.dotenvExists ==> r == Success(None)
    ensures env.dotenvExists && !AllSet(env, LoginKeys) ==> r == Failure(CredentialsMissing(LoginKeys))
    ensures env.dotenvExists && AllSet(env, LoginKeys) && !AllSet(env, PaymentKeys) ==> r == Failure(CredentialsMissing(PaymentKeys))
    ensures r.Success? && r.value.Some? ==>
      && GetEnv(env, UsernameKey) == Some(r.value.value.username)
      && GetEnv(env, PasswordKey) == Some(r.value.value.password)
      && GetEnv(env, CvcKey) == Some(r.value.value.cvc)
  {
    if !env.dotenvExists then Success(None)
    else
      var username := GetEnv(env, UsernameKey);
      var password := GetEnv(env, PasswordKey);
      var cvc := GetEnv(env, CvcKey);
      AllSetPair(env, UsernameKey, PasswordKey);
      assert AllSet(env, PaymentKeys) <==> IsSet(cvc) by {
        assert PaymentKeys[0] == CvcKey;
      }
      if !IsSet(username) || !IsSet(password) then Failure(CredentialsMissing(LoginKeys))
      else if !IsSet(cvc) then Failure(CredentialsMissing(PaymentKeys))
      else Success(Some(Credentials(username.value, password.value, cvc.value)))
  }

  /** The loader fails exactly when a `.env` file exists and one of the three
      variables is unset or empty; it yields credentials exactly when all
      three are set. */
  lemma LoadCredentialsOutcome(env: Env)
    ensures LoadCredentials(env).Failure? <==> env.dotenvExists && !AllSet(env, [UsernameKey, PasswordKey, CvcKey])
    ensures LoadCredentials(env) == Success(None) <==> !env.dotenvExists
  {
    AllSetTriple(env, UsernameKey, PasswordKey, CvcKey);
    AllSetPair(env, UsernameKey, PasswordKey);
    assert PaymentKeys[0] == CvcKey;
  }

  /** A constructed PChome buyer; its credentials are absent when no `.env`
      file was found */
  datatype PChomeBuyer = PChomeBuyer(url: string, credentials: Option<Credentials>)

  /** `PChomeBuyer(url, page)`: the base constructor loads the credentials */
  function NewBuyer(url: string, env: Env): (r: Result<PChomeBuyer, BuyError>)
    ensures r.Success? <==> LoadCredentials(env).Success?
    ensures r.Success? ==> r.value.url == url && Success(r.value.credentials) == LoadCredentials(env)
    ensures r.Failure? ==> r.error == LoadCredentials(env).error
  {
    var credentials :- LoadCredentials(env);
    Success(PChomeBuyer(url, credentials))
  }

  // ---------------------------------------------------------------------
  // The page snapshot and the page script's decisions
  // ---------------------------------------------------------------------

  /** The price box: the texts of its discount and original-price elements,
      None when absent */
  datatype PriceBox = PriceBox(discount: Option<string>, original: Option<string>)

  /** What the page script reads: the trimmed texts of the three name
      headings it tries in order (None when absent), the price box, whether
      the buy-now button exists, and the texts of the `button span.btn__text`
      labels */
  datatype Snapshot = Snapshot(
    nameHeadings: seq<Option<string>>,
    priceBox: Option<PriceBox>,
    buyNowButton: bool,
    buttonLabels: seq<string>)

  /** The record `check_product` returns */
  datatype ProductInfo = ProductInfo(name: Option<string>, price: Option<JsNumber>, originalPrice: Option<JsNumber>, hasStock: bool)

  const NotifyLabel := "\U{6709}\U{8CA8}\U{901A}\U{77E5}\U{6211}" // notify me when in stock

  /** The text of the first heading present: an element is truthy whatever
      its text, so an empty first heading still wins */
  function FirstHeading(headings: seq<Option<string>>): (r: Option<string>)
    ensures r.None? <==> forall k :: 0 <= k < |headings| ==> headings[k].None?
    ensures r.Some? ==>
      exists k :: 0 <= k < |headings| && headings[k] == r && (forall j :: 0 <= j < k ==> headings[j].None?)
  {
    if |headings| == 0 then None
    else if headings[0].Some? then headings[0]
    else
      var r := FirstHeading(headings[1..]);
      assert forall k :: 0 < k < |headings| ==> headings[k] == headings[1..][k - 1];
      r
  }

  /** The number of labels containing "notify me when in stock" */
  function NotifyCount(labels: seq<string>): (n: nat)
    ensures n <= |labels|
    ensures n == 0 <==> forall k :: 0 <= k < |labels| ==> !Contains(labels[k], NotifyLabel)
  {
    if |labels| == 0 then 0
    else
      assert forall k :: 0 < k < |labels| ==> labels[k] == labels[1..][k - 1];
      (if Contains(labels[0], NotifyLabel) then 1 else 0) + NotifyCount(labels[1..])
  }

  /** `buyButton && notifyButtons.length === 0` */
  function HasStock(page: Snapshot): (r: bool)
    ensures r <==> page.buyNowButton && forall k :: 0 <= k < |page.buttonLabels| ==> !Contains(page.buttonLabels[k], NotifyLabel)
  {
    page.buyNowButton && NotifyCount(page.buttonLabels) == 0
  }

  /** `parseInt(...)` of an optional element's text */
  function PriceOf(text: Option<string>): (r: Option<JsNumber>)
    ensures r.Some? <==> text.Some?
    ensures r.Some? ==> (r.value.NaN? <==> NoDigits(text.value))
  {
    match text
    case None => None
    case Some(t) => Some(ParsePrice(t))
  }

  /** The record the page script returns */
  function Evaluate(page: Snapshot): (info: ProductInfo)
    ensures info.name == FirstHeading(page.nameHeadings)
    ensures page.priceBox.None? ==> info.price.None? && info.originalPrice.None?
    ensures page.priceBox.Some? ==>
      info.price == PriceOf(page.priceBox.value.discount) && info.originalPrice == PriceOf(page.priceBox.value.original)
    ensures info.hasStock == HasStock(page)
  {
    var box := page.priceBox.GetOr(PriceBox(None, None));
    ProductInfo(FirstHeading(page.nameHeadings), PriceOf(box.discount), PriceOf(box.original), HasStock(page))
  }

  // ---------------------------------------------------------------------
  // Post-processing in check_product
  // ---------------------------------------------------------------------

  /** Replace a falsy price with the original price */
  function ApplyPriceFallback(info: ProductInfo): (r: ProductInfo)
    ensures r.name == info.name && r.originalPrice == info.originalPrice && r.hasStock == info.hasStock
    ensures Truthy(info.price) ==> r.price == info.price
    ensures !Truthy(info.price) ==> r.price == info.originalPrice
  {
    if !Truthy(info.price) then info.(price := info.originalPrice) else info
  }

  /** After the page script: reject a missing name, reject a record with
      neither price, then fall back to the original price */
  function PostProcess(info: ProductInfo): (r: Result<ProductInfo, BuyError>)
    ensures !IsSet(info.name) ==> r == Failure(ProductNameMissing)
    ensures IsSet(info.name) && !Truthy(info.price) && !Truthy(info.originalPrice) ==> r == Failure(ProductPriceMissing)
    ensures r.Success? <==> IsSet(info.name) && (Truthy(info.price) || Truthy(info.originalPrice))
    ensures r.Success? ==>
      && Truthy(r.value.price)
      && r.value.name == info.name && r.value.originalPrice == info.originalPrice && r.value.hasStock == info.hasStock
      && r.value.price == (if Truthy(info.price) then info.price else info.originalPrice)
  {
    if !IsSet(info.name) then Failure(ProductNameMissing)
    else if !Truthy(info.price) && !Truthy(info.originalPrice) then Failure(ProductPriceMissing)
    else Success(ApplyPriceFallback(info))
  }

  /** `check_product` on a page snapshot */
  function CheckProduct(page: Snapshot): (r: Result<ProductInfo, BuyError>)
    ensures r.Success? ==>
      && IsSet(r.value.name) && r.value.name == FirstHeading(page.nameHeadings)
      && page.priceBox.Some? && Truthy(r.value.price)
      && r.value.originalPrice == PriceOf(page.priceBox.value.original)
      && r.value.hasStock == HasStock(page)
    ensures page.priceBox.None? && IsSet(FirstHeading(page.nameHeadings)) ==> r == Failure(ProductPriceMissing)
  {
    PostProcess(Evaluate(page))
  }

  /** The price fallback is idempotent */
  lemma FallbackIdempotent(info: ProductInfo)
    ensures ApplyPriceFallback(ApplyPriceFallback(info)) == ApplyPriceFallback(info)
  {
  }

  /** Validating an accepted record again accepts it unchanged */
  lemma PostProcessFixpoint(info: ProductInfo)
    requires PostProcess(info).Success?
    ensures PostProcess(PostProcess(info).value) == PostProcess(info)
  {
  }

  /** A page whose discount price reads 0 falls back to a non-zero original
      price */
  lemma ZeroDiscountFallsBack(page: Snapshot, n: nat)
    requires IsSet(FirstHeading(page.nameHeadings))
    requires page.priceBox == Some(PriceBox(Some("0"), Some(Decimal(n))))
    requires n != 0
    ensures CheckProduct(page).Success? && CheckProduct(page).value.price == Some(Finite(n))
  {
    ParsePriceOfDecorated("", 0, "");
    assert "" + Decimal(0) + "" == "0";
    ParsePriceOfDecorated("", n, "");
    assert "" + Decimal(n) + "" == Decimal(n);
  }
}
