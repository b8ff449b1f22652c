# auto-buy, modelled in Dafny

auto-buy drives a browser to buy one product on PChome 24h or on momo
shopping. This project models its decision-making core as pure functions
over immutable data:

- **Platform selection** (`Platform`, main.py). The network location of the
  URL, as `urllib.parse.urlparse` computes it, picks the buyer. A location
  containing "24h.pchome.com.tw" selects PChome. Otherwise one containing
  "momoshop" selects Momo. Anything else is an unsupported platform. The
  chosen buyer is then constructed.
- **Momo buyer** (`Momo`, buyer/momo.py). Construction loads
  `MOMO_USERNAME`/`MOMO_PASSWORD` before it cuts the product code out of the
  URL (`url.split('i_code=')[1].split('&')[0]`), so a credential error wins
  over a bad URL. `check_product` models the page script's price-row loop,
  where the last row carrying a label wins, and its `can_buy` rule over
  `#buy_yes`/`#buy_no`. It then stamps the product code and validates the
  record: a name first, then at least one truthy price.
- **PChome buyer** (`PChome`, buyer/pchome.py). Its credential loader is
  lenient: without a `.env` file it loads nothing and does not fail. With
  one, it checks the login pair before the card CVC. `check_product` models
  the first present name heading, the discount and original prices, and the
  stock rule (a buy-now button and no "notify me" label). It then validates
  and falls back to the original price when the discount price is falsy.
- **Price texts** (`PriceText`). Both sites parse prices with
  `parseInt(text.replace(/[^0-9]/g, ''))`. A text without digits parses to
  NaN, which Python treats as a truthy price.
- **Browser identities** (`UserAgents`, utils.py). These are the desktop and
  mobile User-Agent generators. The random picks become index parameters.
- **Support**: `Text` holds substring search, Python's `str.split`, and
  reading a field between two markers. `Environment` is what `os.getenv`
  sees, plus whether a `.env` file exists. `BuyErrors` lists the failures
  the core raises.

Three behaviours of the code are worth stating plainly:

- A missing `.env` file does not stop a PChome buyer from being
  constructed: its credential loader only warns and loads nothing.
- A price of 0 counts as missing and a NaN price counts as present, following
  Python truthiness.
- PChome's record has two prices, the discount price and the original price,
  and a falsy discount price falls back to the original one.

## Model

| member | source | states |
|---|---|---|
| Platform.AfterScheme | main.py:22 | urlsplit drops the text up to and including the first colon exactly when that text is a letter followed by scheme characters, and otherwise keeps the URL whole; what is left is a suffix of the URL |
| Platform.AfterSchemeOfNonScheme | main.py:22 | a URL without a colon, or whose text before the first colon is not a scheme, is kept whole |
| Platform.Authority | main.py:22 | the authority is the prefix up to the first "/", "?" or "#", contains none of them, and stops at one of them or at the end |
| Platform.Netloc | main.py:22 | the network location holds no "/", "?" or "#", and when non-empty it follows a leading "//" after the scheme |
| Platform.NetlocOfAbsoluteUrl | main.py:22 | round trip: the host of "scheme://host" followed by a path, query or fragment is read back exactly |
| Platform.NetlocOfSchemelessUrl | main.py:22 | a URL with no colon and no leading "//" has an empty network location |
| Platform.SelectSite | main.py:24-31 | PChome exactly when the location contains "24h.pchome.com.tw"; Momo exactly when it does not but contains "momoshop"; otherwise an unsupported-platform error naming the location |
| Platform.CreateBuyer | main.py:21-31 | an unsupported location fails before any buyer is built; otherwise the result is the selected buyer's construction, success or error |
| Platform.OnlyHostSelects | main.py:22-31 | a path, query or fragment that mentions a platform cannot select it: only the host counts |
| Platform.SchemelessUrlRejected | main.py:22-31 | a URL written without scheme and "//" is rejected as an unsupported platform with an empty location |
| Platform.MomoUrlBuildsMomoBuyer | main.py:21-29 | a Momo product URL with credentials set yields a Momo buyer holding the URL's product code |
| Platform.LooseMomoHost | main.py:27 | the fragment match is a plain substring test: "x-momoshop.example" selects Momo |
| Platform.UpperCaseHostRejected | main.py:24-31 | the match is case-sensitive: "MOMOSHOP.com" is unsupported |
| Platform.QueryDoesNotSelect | main.py:22-31 | "https://example.com/?momoshop" is rejected with the location "example.com" |
| Platform.PChomeMatchedFirst | main.py:24-29 | a location naming both platforms selects PChome |
| Text.Split | buyer/momo.py:21 | str.split: at least one piece, joining the pieces with the separator restores the string, no piece contains the separator, and one piece exactly when the separator is absent |
| Text.Before | buyer/momo.py:21 | split(sep)[0] is the prefix before the first separator, or the whole string |
| Momo.ExtractICode | buyer/momo.py:18-24 | fails with the product-code error exactly when "i_code=" is absent; otherwise the code is the text after the first marker up to the end, an "&" or another marker, and holds neither |
| Momo.ExtractICodeRoundTrip | buyer/momo.py:21 | round trip: a code without "&" or the marker, placed after the first "i_code=" and followed by nothing or "&...", is extracted exactly |
| Momo.LoadCredentials | buyer/momo.py:26-33 | succeeds exactly when both variables are set and non-empty, returning their values; otherwise the credentials error |
| Momo.NewBuyer | buyer/momo.py:14-16 | missing credentials win over a URL without a product code; success exactly when both are present, keeping the URL, the credentials and the extracted code |
| Momo.ScanRow | buyer/momo.py:84-97 | a row writes only the slot of its first matching label, and only when it has a price element; that slot receives its parsed price |
| Momo.ScanRowsKeepsLastPrice | buyer/momo.py:83-98 | after the loop each slot holds the price of the last row writing it, or its previous value when none does |
| Momo.CanBuy | buyer/momo.py:101-112 | can_buy holds exactly when #buy_yes is present and displayed, or #buy_no is present and hidden |
| Momo.Evaluate | buyer/momo.py:64-115 | the script's record: the name as read, no product code, each price slot the last labelled row's price, and the can_buy rule |
| Momo.PostProcess | buyer/momo.py:117-125 | a falsy name fails first, then a record with no truthy price; on success the record is returned with the buyer's code |
| Momo.CheckProduct | buyer/momo.py:57-131 | an accepted product has a non-empty name, the buyer's code, a truthy price among the three, prices from the last labelled rows and the can_buy rule |
| Momo.NoPriceRejected | buyer/momo.py:124-125 | a named page whose labelled prices are all absent or zero is rejected for missing price |
| PriceText.DigitsOnly | buyer/momo.py:89 | the replace keeps only digits and is empty exactly when the text has none |
| PriceText.ParsePrice | buyer/pchome.py:131 | parseInt gives NaN exactly when the text has no digit |
| PriceText.ParsePriceIgnoresNonDigit | buyer/pchome.py:137 | inserting a non-digit such as a comma or currency sign anywhere does not change the parsed price |
| PriceText.ParsePriceOfDecorated | buyer/momo.py:89 | a number written in decimal between digit-free decorations parses back to itself |
| PriceText.ParsePriceExample | buyer/pchome.py:131 | "$1,299" parses to 1299 |
| PChome.LoadCredentials | buyer/pchome.py:19-40 | no .env file loads nothing without failing; with one, an unset login pair fails before an unset CVC; loaded values are the environment's |
| PChome.LoadCredentialsOutcome | buyer/pchome.py:21-40 | the loader fails exactly when a .env file exists and one of the three variables is unset or empty, and loads nothing exactly when there is no .env file |
| PChome.NewBuyer | buyer/pchome.py:16-17 | construction succeeds exactly when the credential loader does, keeping the URL and what was loaded |
| PChome.FirstHeading | buyer/pchome.py:118-123 | the name is the text of the first heading present, even if empty, and none only when no heading is present |
| PChome.NotifyCount | buyer/pchome.py:143 | the count of "notify me" labels is zero exactly when no label contains the phrase |
| PChome.HasStock | buyer/pchome.py:142-144 | in stock exactly when the buy-now button exists and no label asks to be notified |
| PChome.PriceOf | buyer/pchome.py:129-138 | a present price element parses, NaN exactly when it has no digit; an absent one leaves the price null |
| PChome.Evaluate | buyer/pchome.py:109-147 | the script's record: the first heading, both prices null without a price box, the parsed prices inside one, and the stock rule |
| PChome.ApplyPriceFallback | buyer/pchome.py:156-158 | a truthy price is kept, a falsy one is replaced by the original price, and nothing else changes |
| PChome.PostProcess | buyer/pchome.py:149-158 | a falsy name fails first, then two falsy prices; an accepted record has a truthy price and unchanged name, original price and stock flag |
| PChome.CheckProduct | buyer/pchome.py:100-165 | an accepted product has a non-empty name from the first heading, a price box, a truthy price and the stock rule; a named page without a price box fails for missing price |
| PChome.FallbackIdempotent | buyer/pchome.py:156-158 | applying the price fallback twice equals applying it once |
| PChome.PostProcessFixpoint | buyer/pchome.py:149-158 | validating an accepted record again accepts it unchanged |
| PChome.ZeroDiscountFallsBack | buyer/pchome.py:153-158 | a discount price reading "0" falls back to a non-zero original price |
| UserAgents.RandomUserAgent | utils.py:28-35 | every pick is in the desktop catalogue and names the picked OS between the parentheses and the picked version after "Chrome/" |
| UserAgents.DesktopCatalogueIsReachable | utils.py:11-35 | every identity in the catalogue is produced by some pair of picks |
| UserAgents.RandomUserAgentInjective | utils.py:11-35 | two picks give the same identity only when they pick the same OS and the same version |
| UserAgents.DesktopOsParsesBack | utils.py:34 | the desktop template's parenthesised part reads back as the OS descriptor |
| UserAgents.DesktopVersionParsesBack | utils.py:34 | the desktop template's "Chrome/" field reads back as the version |
| UserAgents.DesktopFormatInjective | utils.py:34 | distinct OS and version pairs give distinct desktop identities |
| UserAgents.IPhoneDevices | utils.py:40-52 | exactly the first and fifth device entries take the iPhone branch |
| UserAgents.IPhoneFormatFacts | utils.py:53 | the Safari template names its device in parentheses and never mentions Chrome |
| UserAgents.ChromeMobileDeviceParsesBack | utils.py:55 | the Chrome Mobile template names its device in parentheses |
| UserAgents.ChromeMobileVersionParsesBack | utils.py:55 | the Chrome Mobile template's "Chrome/" field reads back as the version |
| UserAgents.ChromeMobileEnding | utils.py:55 | the Chrome Mobile template ends with " Mobile Safari/537.36" |
| UserAgents.MobileUserAgent | utils.py:37-55 | the identity names the picked device; iPhone identities never mention "Chrome/"; the others always do, carry the picked version and end as Chrome Mobile |
| UserAgents.IPhoneIgnoresVersion | utils.py:49-53 | for an iPhone the version pick has no effect |
| UserAgents.IPhoneFormatNamesSafari16 | utils.py:53 | the Safari template always announces "Version/16.0" |
| UserAgents.IOS15DeviceClaimsVersion16 | utils.py:45-53 | the iOS 15 device entry is still announced as Safari 16.0 |

## Left out

- Browser scripting: login flows, purchase click sequences, waits,
  screenshots and the Momo purchase guard. These drive an external browser.
  The model reads a page only as the snapshot the page scripts inspect.
- DOM querying, `textContent` and `trim`: the Momo name and the PChome name
  headings are read trimmed, and the snapshot holds them already trimmed. The
  Momo row text, the `.seoPrice` text and the PChome button labels are read
  untrimmed, and the snapshot holds them as read. Trimming could not change
  the outcome there anyway: it removes only whitespace, which the digit
  extraction drops and which the labels searched for do not begin or end with.
- `parseInt` precision: prices are exact naturals. JavaScript doubles lose
  integers above 2^53.
- PChome.Evaluate: `has_stock` is a boolean. The script yields null when the
  buy-now button is missing, and false when it is present but a notify label
  exists. The value is only logged, where null and false print differently;
  the model keeps its truth value and does not tell the two apart.
- Platform.Netloc: this is `urlsplit` as far as the selection needs it. The
  C0/space stripping and the tab and newline removal are not modelled. Nor
  are two checks that raise ValueError in urlsplit and so make
  `create_buyer` fail: the IPv6 bracket validation, and the NFKC check on a
  non-ASCII location. That check rejects a location whose normalised form
  gains "/", "?", "#", "@" or ":". For example, "https://momoshop\u2100x/"
  raises, since U+2100 normalises to "a/c", while the model selects Momo for
  that URL. Unicode normalisation is out of scope here.
- `wait_for_scheduled_time`, `run_buyer`, `main` and `TimingContext` depend
  on clocks, the CLI and logging.
- `load_dotenv` and `os.getenv` are I/O. Their result is the `Env` parameter:
  the variables visible after loading, and whether a `.env` file exists.
- UserAgents.RandomUserAgent: the randomness of `random.choice` is not
  modelled. The picks are index parameters, and the statements hold for
  every pick.
- buyer/__init__.py and tests/conftest.py hold no logic of the core.
