/**
 * The closed enumerations of the PxPay client (the files under WindCave/PxPay/Enums and
 * WindCave/Enums/RecurringMode.cs). `.ToString()` of a C# enum value is its variant
 * name, so each enumeration has a `Name` function giving that wire token.
 */
module Enums {
  import opened Wrappers

  /** WindCave/PxPay/Enums/TransactionType.cs */
  datatype TransactionType = Purchase | Auth

  function TransactionTypeName(t: TransactionType): string
  {
    match t
    case Purchase => "Purchase"
    case Auth => "Auth"
  }

  /** `Enum.Parse<TransactionType>` restricted to exact variant names. */
  function ParseTransactionType(s: string): (r: Option<TransactionType>)
    ensures forall v :: r == Some(v) <==> TransactionTypeName(v) == s
  {
    if s == "Purchase" then Some(Purchase)
    else if s == "Auth" then Some(Auth)
    else None
  }

  /** WindCave/Enums/RecurringMode.cs */
  datatype RecurringMode =
    | RecurringInitial
    | InstallmentInitial
    | CredentialOnFileInitial
    | UnscheduledCredentialOnFileInitial
    | CredentialOnFile
    | UnscheduledCredentialOnFile
    | Incremental
    | Installment
    | Recurring
    | RecurringNoExpiry
    | Resubmission
    | Reauthorisation
    | DelayedCharges
    | Noshow

  function RecurringModeName(m: RecurringMode): string
  {
    match m
    case RecurringInitial => "RecurringInitial"
    case InstallmentInitial => "InstallmentInitial"
    case CredentialOnFileInitial => "CredentialOnFileInitial"
    case UnscheduledCredentialOnFileInitial => "UnscheduledCredentialOnFileInitial"
    case CredentialOnFile => "CredentialOnFile"
    case UnscheduledCredentialOnFile => "UnscheduledCredentialOnFile"
    case Incremental => "Incremental"
    case Installment => "Installment"
    case Recurring => "Recurring"
    case RecurringNoExpiry => "RecurringNoExpiry"
    case Resubmission => "Resubmission"
    case Reauthorisation => "Reauthorisation"
    case DelayedCharges => "DelayedCharges"
    case Noshow => "Noshow"
  }

  /** WindCave/PxPay/Enums/ClientType.cs */
  datatype ClientType = Internet | Recurring

  function ClientTypeName(c: ClientType): string
  {
    match c
    case Internet => "Internet"
    case Recurring => "Recurring"
  }

  /** WindCave/PxPay/Enums/ForcePaymentMethod.cs */
  datatype ForcePaymentMethod =
    | Account2Account
    | Alipay
    | AmexExpressWallet
    | Card
    | GECard
    | MasterPass
    | MonerisIOP
    | Oxipay
    | PayPal
    | UPOP5
    | UPOP
    | VisaCheckout
    | WeChat

  function ForcePaymentMethodName(f: ForcePaymentMethod): string
  {
    match f
    case Account2Account => "Account2Account"
    case Alipay => "Alipay"
    case AmexExpressWallet => "AmexExpressWallet"
    case Card => "Card"
    case GECard => "GECard"
    case MasterPass => "MasterPass"
    case MonerisIOP => "MonerisIOP"
    case Oxipay => "Oxipay"
    case PayPal => "PayPal"
    case UPOP5 => "UPOP5"
    case UPOP => "UPOP"
    case VisaCheckout => "VisaCheckout"
    case WeChat => "WeChat"
  }

  /** WindCave/PxPay/Enums/CvcResultCode.cs */
  datatype CvcResultCode =
    | Matched
    | NoMatch
    | NotProcessed
    | CvcRequiredButNotSent
    | CvcNotSupportedByIssuer
    | Unknown

  /**
   * The currency enumerations `PxPayCurrency` and `WindCaveCurrency` are not part of this
   * model's sources; a currency is represented by its variant name, and the set of names
   * an enumeration declares is passed where a strict parse needs it.
   */
  datatype Currency = Currency(code: string)

  function CurrencyName(c: Currency): string
  {
    c.code
  }

  /** `Enum.Parse` of a currency enumeration whose variant names are `known`. */
  function ParseCurrency(known: set<string>, s: string): (r: Option<Currency>)
    ensures forall v :: r == Some(v) <==> CurrencyName(v) == s && s in known
  {
    if s in known then Some(Currency(s)) else None
  }

  /** `char.ToLower` on ASCII letters, as the invariant culture does; every other character is unchanged. */
  function LowerChar(c: char): (r: char)
    ensures 'A' <= c <= 'Z' ==> r as int == c as int + 32
    ensures !('A' <= c <= 'Z') ==> r == c
  {
    if 'A' <= c <= 'Z' then (c as int + 32) as char else c
  }

  /** `string.ToLower()`, character by character. */
  function ToLower(s: string): (r: string)
    ensures |r| == |s|
    ensures forall i :: 0 <= i < |s| ==> r[i] == LowerChar(s[i])
  {
    if s == [] then [] else [LowerChar(s[0])] + ToLower(s[1..])
  }

  /** The wire token of a recurring mode: its variant name in lower case. */
  function RecurringModeToken(m: RecurringMode): string
  {
    ToLower(RecurringModeName(m))
  }
}
