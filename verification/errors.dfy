/** The failures the core raises. The source raises `ValueError` for all of
    them, with distinct messages; each message is one constructor here. */
module BuyErrors {

  datatype BuyError =
    | UnsupportedPlatform(domain: string)   // no buyer for this host
    | CredentialsMissing(keys: seq<string>) // the named variables must be set
    | ProductCodeNotFound                   // the Momo URL has no product code
    | ProductNameMissing                    // the page yielded no product name
    | ProductPriceMissing                   // the page yielded no usable price
}
