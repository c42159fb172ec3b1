/**
 * The records the PxPay client consumes and produces:
 * WindCave/PxPay/Models/CreateTransactionRequest.cs, CreateTransactionResult.cs, and the
 * `TransactionDetails` and `ErrorDetails` records those files refer to.
 * A C# string property may be null, so it is an `Option<string>` here.
 */
module Models {
  import opened Wrappers
  import opened Formatting
  import Enums

  /** The details of a hosted-payment transaction to create. */
  datatype CreateTransactionRequest = CreateTransactionRequest(
    Amount: Int32,
    BillingId: Option<string>,
    CurrencyInput: Enums.Currency,
    EmailAddress: Option<string>,
    EnableAddBillCard: bool,
    RecurringMode: Option<Enums.RecurringMode>,
    MerchantReference: Option<string>,
    DpsBillingId: Option<string>,
    TxnData1: Option<string>,
    TxnData2: Option<string>,
    TxnData3: Option<string>,
    TxnId: Option<string>,
    UrlFail: Option<string>,
    UrlSuccess: Option<string>,
    UrlCallback: Option<string>,
    Opt: Option<string>,
    ClientType: Option<Enums.ClientType>,
    ForcePaymentMethod: Option<Enums.ForcePaymentMethod>,
    DebtRepaymentIndicator: bool,
    InstallmentNumber: Option<Int32>,
    InstallmentCount: Option<Int32>)

  /** `!string.IsNullOrEmpty(s)`. */
  predicate HasText(s: Option<string>)
  {
    s.Some? && s.value != ""
  }

  /** An optional string is null or at most `n` UTF-16 code units long ("Max n chars"). */
  predicate AtMostChars(s: Option<string>, n: nat)
  {
    s.None? || Utf16Length(s.value) <= n
  }

  /** An optional string is null or at most `n` bytes long in UTF-8 ("Max n bytes"). */
  predicate AtMostBytes(s: Option<string>, n: nat)
  {
    s.None? || Utf8Length(s.value) <= n
  }

  predicate IsSchemeChar(c: char)
  {
    'a' <= c <= 'z' || 'A' <= c <= 'Z'
  }

  /** `url` is a non-empty run of letters, ending at `i`, followed by "://". */
  predicate ProtocolEndsAt(url: string, i: nat)
  {
    1 <= i && i + 3 <= |url| && url[i..i + 3] == "://" && forall j :: 0 <= j < i ==> IsSchemeChar(url[j])
  }

  /** A URL that starts with its protocol, such as "https://". */
  predicate StartsWithProtocol(url: string)
  {
    exists i: nat :: i < |url| && ProtocolEndsAt(url, i)
  }

  /** A required URL: present, starting with its protocol, at most 255 bytes. */
  predicate ValidUrl(s: Option<string>)
  {
    s.Some? && StartsWithProtocol(s.value) && Utf8Length(s.value) <= 255
  }

  /**
   * What the documentation of each property asks of a request: the amount is at most
   * "999999.99" (99999999 cents) and not negative, the required fields are present and
   * every text field keeps to its maximum length.
   */
  predicate ValidRequest(r: CreateTransactionRequest)
  {
    && 0 <= r.Amount <= 99999999
    && AtMostChars(r.BillingId, 32)
    && AtMostBytes(r.EmailAddress, 255)
    && AtMostBytes(r.MerchantReference, 64)
    && AtMostChars(r.DpsBillingId, 16)
    && AtMostBytes(r.TxnData1, 255)
    && AtMostBytes(r.TxnData2, 255)
    && AtMostBytes(r.TxnData3, 255)
    && HasText(r.TxnId) && Utf8Length(r.TxnId.value) <= 16
    && ValidUrl(r.UrlFail)
    && ValidUrl(r.UrlSuccess)
    && AtMostBytes(r.UrlCallback, 255)
    && AtMostBytes(r.Opt, 64)
  }

  /** An error reported to the caller of `CreatePurchase`/`CreateAuth`. */
  datatype ErrorDetails = ErrorDetails(ErrorMessage: string)

  /** The outcome of creating a transaction; the payment page address is kept as its text. */
  datatype CreateTransactionResult = CreateTransactionResult(
    IsSuccessful: bool,
    SecurePaymentUrl: Option<string>,
    Error: Option<ErrorDetails>)

  /** The details the gateway reports for a processed transaction. */
  datatype TransactionDetails = TransactionDetails(
    ValidTransaction: bool,
    AmountSettlement: Int32,
    AuthCode: string,
    CardName: string,
    CardNumber: string,
    DateExpiry: string,
    DpsTxnRef: string,
    Success: bool,
    ResponseText: string,
    DpsBillingId: string,
    CardHolderName: string,
    CurrencySettlement: Enums.Currency,
    PaymentMethod: string,
    TxnData1: string,
    TxnData2: string,
    TxnData3: string,
    TxnType: Enums.TransactionType,
    CurrencyInput: Enums.Currency,
    MerchantReference: string,
    ClientIpAddress: Option<string>,
    TxnId: string,
    EmailAddress: string,
    BillingId: string,
    TxnMac: string,
    CardNumber2: string,
    Cvc2ResultCode: Enums.CvcResultCode)
}
