/**
 * WindCave/PxPay/PxPayClient.cs: the outcome of `CreateTransaction`, the field mapping of
 * `ProcessResponse`, `GetCvcResultCode`, `BuildProcessResponseXmlRequest`, and the
 * `PxPayClient` class whose methods build, post and classify.
 *
 * Posting a document is a parameter `send`; what it gives back is an `HttpReply`.
 */
module PxPay {
  import opened Wrappers
  import opened Faults
  import opened XmlHelper
  import opened Formatting
  import opened Models
  import opened RequestEncoder
  import Enums

  /** The result of posting a document to the gateway and loading the body as XML. */
  datatype HttpReply =
    /** `PostAsync` or `ReadAsStringAsync` threw. */
    | NoReply
    /** A reply; `Body` is `None` when `XmlDocument.LoadXml` rejects the text. */
    | Reply(IsSuccessStatusCode: bool, Body: Option<Node>)

  // ---------------------------------------------------------------------------
  // GetCvcResultCode

  /** The switch of `GetCvcResultCode`: five one-letter tokens, everything else `Unknown`. */
  function CvcResultFromToken(s: string): (r: Enums.CvcResultCode)
    ensures r == Enums.Matched <==> s == "M"
    ensures r == Enums.NoMatch <==> s == "N"
    ensures r == Enums.NotProcessed <==> s == "P"
    ensures r == Enums.CvcRequiredButNotSent <==> s == "S"
    ensures r == Enums.CvcNotSupportedByIssuer <==> s == "U"
    ensures r == Enums.Unknown <==> s != "M" && s != "N" && s != "P" && s != "S" && s != "U"
  {
    match s
    case "M" => Enums.Matched
    case "N" => Enums.NoMatch
    case "P" => Enums.NotProcessed
    case "S" => Enums.CvcRequiredButNotSent
    case "U" => Enums.CvcNotSupportedByIssuer
    case _ => Enums.Unknown
  }

  /** A token the gateway may send for each code; `Unknown` stands for any other text. */
  function CvcToken(c: Enums.CvcResultCode): (s: string)
    ensures CvcResultFromToken(s) == c
  {
    match c
    case Matched => "M"
    case NoMatch => "N"
    case NotProcessed => "P"
    case CvcRequiredButNotSent => "S"
    case CvcNotSupportedByIssuer => "U"
    case Unknown => ""
  }

  /**
   * `GetCvcResultCode`: total over the tag's text, but the lookup itself throws when
   * the tag is absent.
   */
  function GetCvcResultCode(doc: Node, tag: string): (r: Result<Enums.CvcResultCode, Fault>)
    ensures r.Success? <==> TagExists(doc, tag)
    ensures r.Failure? ==> r.error == MissingTag(tag)
    ensures r.Success? ==> r.value == CvcResultFromToken(InnerText(ElementsByTagName(doc, tag)[0]))
  {
    var text :- GetString(doc, tag);
    Success(CvcResultFromToken(text))
  }

  // ---------------------------------------------------------------------------
  // BuildProcessResponseXmlRequest

  const ProcessResponseRoot := "ProcessResponse"

  /**
   * `BuildProcessResponseXmlRequest`: the credentials and the response code under
   * `ProcessResponse`, as three child elements.
   */
  function ProcessResponseRequest(c: Credentials, code: Option<string>): (r: Node)
    ensures r.Element? && r.name == ProcessResponseRoot && |r.children| == 3
    ensures GetChildString(r, "PxPayUserId") == Success(TextOf(c.UserId))
    ensures GetChildString(r, "PxPayKey") == Success(TextOf(c.Key))
    ensures GetChildString(r, "Response") == Success(TextOf(code))
    ensures GetString(r, "Response") == Success(TextOf(code))
  {
    var pairs := [("PxPayUserId", TextOf(c.UserId)), ("PxPayKey", TextOf(c.Key)), ("Response", TextOf(code))];
    FlatDocumentLookup(ProcessResponseRoot, map[], pairs, 0);
    FlatDocumentLookup(ProcessResponseRoot, map[], pairs, 1);
    FlatDocumentLookup(ProcessResponseRoot, map[], pairs, 2);
    Element(ProcessResponseRoot, map[], Leaves(pairs))
  }

  // ---------------------------------------------------------------------------
  // CreateTransaction

  /** `GetElementsByTagName(root)[0].Attributes[attribute].Value`, with its two null cases. */
  function FirstAttribute(doc: Node, root: string, attribute: string): (r: Result<string, Fault>)
    ensures r.Success? <==> TagExists(doc, root) && Attribute(ElementsByTagName(doc, root)[0], attribute).Some?
    ensures !TagExists(doc, root) ==> r == Failure(MissingTag(root))
    ensures TagExists(doc, root) && Attribute(ElementsByTagName(doc, root)[0], attribute).None? ==> r == Failure(MissingAttribute(root, attribute))
    ensures r.Success? ==> Some(r.value) == Attribute(ElementsByTagName(doc, root)[0], attribute)
  {
    var found := ElementsByTagName(doc, root);
    if |found| == 0 then Failure(MissingTag(root))
    else match Attribute(found[0], attribute)
      case None => Failure(MissingAttribute(root, attribute))
      case Some(v) => Success(v)
  }

  const UnreachableMessage := "Could not access payment gateway!"
  const InvalidRequestMessage := "Invalid request to payment gateway!"
  const ExceptionPrefix := "Exception occured creating payment transaction. "
  /** The message of the exception `ProcessResponse` throws on an unsuccessful status. */
  const NoResponseMessage := "Could not get response from payment gateway!"

  /** A stand-in for the exception's `Message`, whose .NET wording is not modelled. */
  function FaultMessage(f: Fault): string
  {
    match f
    case TransportFailed => "no reply"
    case GatewayUnreachable => NoResponseMessage
    case MalformedXml => "malformed XML"
    case MissingTag(t) => "missing " + t
    case MissingAttribute(e, a) => "missing " + e + "/@" + a
    case UnknownEnumName(t, s) => "unknown " + t + " " + s
    case MalformedInteger(s) => "malformed integer " + s
    case MalformedUri(s) => "malformed URI " + s
  }

  /** The message the gateway's own error code and text become. */
  function RecoMessage(reco: string, responseText: string): string
  {
    "Response code: " + reco + " - " + responseText
  }

  /** The result a failed call returns: not successful, no URL, and the error set. */
  function Rejected(message: string): (r: CreateTransactionResult)
    ensures !r.IsSuccessful && r.SecurePaymentUrl.None? && r.Error == Some(ErrorDetails(message))
  {
    CreateTransactionResult(false, None, Some(ErrorDetails(message)))
  }

  /** The part of `CreateTransaction` inside `try` after the status check; a failure is what it throws. */
  function AfterStatus(doc: Node, uriParses: string -> bool): (r: Result<CreateTransactionResult, Fault>)
    // A successful result exactly for valid="1", no gateway error code and a usable URI.
    ensures r.Success? && r.value.IsSuccessful <==>
      FirstAttribute(doc, "Request", "valid") == Success("1") && !TagExists(doc, "Reco") &&
      TagExists(doc, "URI") && uriParses(GetString(doc, "URI").value)
    ensures r.Success? && r.value.IsSuccessful ==> r.value == CreateTransactionResult(true, Some(GetString(doc, "URI").value), None)
    // No `Request` element, or no `valid` attribute on the first one, throws.
    ensures FirstAttribute(doc, "Request", "valid").Failure? ==> r == Failure(FirstAttribute(doc, "Request", "valid").error)
    // `valid` other than "1" is an invalid request, whatever else the reply holds.
    ensures FirstAttribute(doc, "Request", "valid").Success? && FirstAttribute(doc, "Request", "valid").value != "1" ==>
      r == Success(Rejected(InvalidRequestMessage))
    // A gateway error code is reported with its text; a missing text throws.
    ensures FirstAttribute(doc, "Request", "valid") == Success("1") && TagExists(doc, "Reco") ==>
      r == (if TagExists(doc, "ResponseText")
            then Success(Rejected(RecoMessage(GetString(doc, "Reco").value, GetString(doc, "ResponseText").value)))
            else Failure(MissingTag("ResponseText")))
    // Without an error code, a missing or unparsable URI throws.
    ensures FirstAttribute(doc, "Request", "valid") == Success("1") && !TagExists(doc, "Reco") && !TagExists(doc, "URI") ==>
      r == Failure(MissingTag("URI"))
    ensures FirstAttribute(doc, "Request", "valid") == Success("1") && !TagExists(doc, "Reco") && TagExists(doc, "URI") &&
            !uriParses(GetString(doc, "URI").value) ==>
      r == Failure(MalformedUri(GetString(doc, "URI").value))
  {
    var valid :- FirstAttribute(doc, "Request", "valid");
    if valid != "1" then Success(Rejected(InvalidRequestMessage))
    else if TagExists(doc, "Reco") then
      var reco := GetString(doc, "Reco").value;
      var responseText :- GetString(doc, "ResponseText");
      Success(Rejected(RecoMessage(reco, responseText)))
    else
      var uri :- GetString(doc, "URI");
      if uriParses(uri) then Success(CreateTransactionResult(true, Some(uri), None))
      else Failure(MalformedUri(uri))
  }

  /**
   * What `CreateTransaction` returns for a reply. `uriParses` says whether `new Uri`
   * accepts a text.
   */
  function CreateOutcome(reply: HttpReply, uriParses: string -> bool): (r: CreateTransactionResult)
    // Success exactly on an accepted request without a gateway error code and with a usable URI.
    ensures r.IsSuccessful <==>
      reply.Reply? && reply.IsSuccessStatusCode && reply.Body.Some? &&
      FirstAttribute(reply.Body.value, "Request", "valid") == Success("1") &&
      !TagExists(reply.Body.value, "Reco") && TagExists(reply.Body.value, "URI") &&
      uriParses(InnerText(ElementsByTagName(reply.Body.value, "URI")[0]))
    ensures r.IsSuccessful ==>
      r.SecurePaymentUrl == Some(InnerText(ElementsByTagName(reply.Body.value, "URI")[0])) && r.Error.None?
    ensures !r.IsSuccessful ==> r.SecurePaymentUrl.None? && r.Error.Some?
    // An unsuccessful status returns before the body is looked at.
    ensures reply.Reply? && !reply.IsSuccessStatusCode ==> r == Rejected(UnreachableMessage)
    ensures (reply.Reply? && reply.IsSuccessStatusCode && reply.Body.Some? &&
             FirstAttribute(reply.Body.value, "Request", "valid").Success? &&
             FirstAttribute(reply.Body.value, "Request", "valid").value != "1") ==>
      r == Rejected(InvalidRequestMessage)
    ensures (reply.Reply? && reply.IsSuccessStatusCode && reply.Body.Some? &&
             FirstAttribute(reply.Body.value, "Request", "valid") == Success("1") &&
             TagExists(reply.Body.value, "Reco") && TagExists(reply.Body.value, "ResponseText")) ==>
      r == Rejected(RecoMessage(GetString(reply.Body.value, "Reco").value, GetString(reply.Body.value, "ResponseText").value))
    // Whatever is thrown on the way is caught and reported with the exception prefix.
    ensures reply.NoReply? ==> r == Rejected(ExceptionPrefix + FaultMessage(TransportFailed))
    ensures reply.Reply? && reply.IsSuccessStatusCode && reply.Body.None? ==> r == Rejected(ExceptionPrefix + FaultMessage(MalformedXml))
    ensures (reply.Reply? && reply.IsSuccessStatusCode && reply.Body.Some? && !TagExists(reply.Body.value, "Request")) ==>
      r == Rejected(ExceptionPrefix + FaultMessage(MissingTag("Request")))
  {
    match reply
    case NoReply => Rejected(ExceptionPrefix + FaultMessage(TransportFailed))
    case Reply(ok, body) =>
      if !ok then Rejected(UnreachableMessage)
      else match body
        case None => Rejected(ExceptionPrefix + FaultMessage(MalformedXml))
        case Some(doc) =>
          match AfterStatus(doc, uriParses)
          case Success(result) => result
          case Failure(f) => Rejected(ExceptionPrefix + FaultMessage(f))
  }

  // ---------------------------------------------------------------------------
  // ProcessResponse

  const DefaultPaymentMethod := "card payment"

  /** The text of a tag when the document has one, otherwise `default`. */
  function StringOr(doc: Node, t: string, default: string): string
  {
    if TagExists(doc, t) then GetString(doc, t).value else default
  }

  /** The text of a tag when the document has one, otherwise nothing. */
  function OptionalString(doc: Node, t: string): Option<string>
  {
    if TagExists(doc, t) then Some(GetString(doc, t).value) else None
  }

  /**
   * When none of the lookups of `ProcessResponse` throws: the first `Response` element
   * has a `valid` attribute, every mandatory tag exists, the amount reads as an Int32 and
   * the enumerations name variants.
   */
  predicate Decodable(doc: Node, currencies: set<string>)
  {
    && FirstAttribute(doc, "Response", "valid").Success?
    && TagExists(doc, "AmountSettlement") && TagExists(doc, "AuthCode") && TagExists(doc, "CardName")
    && TagExists(doc, "CardNumber") && TagExists(doc, "DateExpiry") && TagExists(doc, "DpsTxnRef")
    && TagExists(doc, "Success") && TagExists(doc, "ResponseText") && TagExists(doc, "DpsBillingId")
    && TagExists(doc, "CardHolderName") && TagExists(doc, "CurrencySettlement")
    && TagExists(doc, "TxnData1") && TagExists(doc, "TxnData2") && TagExists(doc, "TxnData3")
    && TagExists(doc, "TxnType") && TagExists(doc, "CurrencyInput") && TagExists(doc, "MerchantReference")
    && TagExists(doc, "TxnId") && TagExists(doc, "EmailAddress") && TagExists(doc, "BillingId")
    && TagExists(doc, "TxnMac") && TagExists(doc, "CardNumber2") && TagExists(doc, "Cvc2ResultCode")
    && ParseAmount(GetString(doc, "AmountSettlement").value).Success?
    && GetString(doc, "CurrencySettlement").value in currencies
    && Enums.ParseTransactionType(GetString(doc, "TxnType").value).Some?
    && GetString(doc, "CurrencyInput").value in currencies
  }

  /** The `valid` attribute and the settlement amount, the first two things `ProcessResponse` reads. */
  function DecodeStatus(doc: Node, d: TransactionDetails): (r: Result<TransactionDetails, Fault>)
    // Fails exactly when the `valid` attribute or a readable amount is missing; sets only those two fields.
    ensures r.Success? <==>
      FirstAttribute(doc, "Response", "valid").Success? && TagExists(doc, "AmountSettlement") &&
      ParseAmount(GetString(doc, "AmountSettlement").value).Success?
    ensures r.Success? ==> r.value == d.(
      ValidTransaction := FirstAttribute(doc, "Response", "valid").value == "1",
      AmountSettlement := ParseAmount(GetString(doc, "AmountSettlement").value).value)
  {
    var valid :- FirstAttribute(doc, "Response", "valid");
    var amountText :- GetString(doc, "AmountSettlement");
    var amount :- ParseAmount(amountText);
    Success(d.(ValidTransaction := valid == "1", AmountSettlement := amount))
  }

  /** The card and outcome fields, from `AuthCode` to `CardHolderName`. */
  function DecodeCard(doc: Node, d: TransactionDetails): (r: Result<TransactionDetails, Fault>)
    // Fails exactly when one of its tags is missing; sets only its fields.
    ensures r.Success? <==>
      TagExists(doc, "AuthCode") && TagExists(doc, "CardName") && TagExists(doc, "CardNumber") &&
      TagExists(doc, "DateExpiry") && TagExists(doc, "DpsTxnRef") && TagExists(doc, "Success") &&
      TagExists(doc, "ResponseText") && TagExists(doc, "DpsBillingId") && TagExists(doc, "CardHolderName")
    ensures r.Success? ==> r.value == d.(
      AuthCode := GetString(doc, "AuthCode").value, CardName := GetString(doc, "CardName").value,
      CardNumber := GetString(doc, "CardNumber").value, DateExpiry := GetString(doc, "DateExpiry").value,
      DpsTxnRef := GetString(doc, "DpsTxnRef").value, Success := GetString(doc, "Success").value == "1",
      ResponseText := GetString(doc, "ResponseText").value, DpsBillingId := GetString(doc, "DpsBillingId").value,
      CardHolderName := GetString(doc, "CardHolderName").value)
  {
    var authCode :- GetString(doc, "AuthCode");
    var cardName :- GetString(doc, "CardName");
    var cardNumber :- GetString(doc, "CardNumber");
    var dateExpiry :- GetString(doc, "DateExpiry");
    var dpsTxnRef :- GetString(doc, "DpsTxnRef");
    var success :- GetString(doc, "Success");
    var responseText :- GetString(doc, "ResponseText");
    var dpsBillingId :- GetString(doc, "DpsBillingId");
    var cardHolderName :- GetString(doc, "CardHolderName");
    Success(d.(
      AuthCode := authCode, CardName := cardName, CardNumber := cardNumber, DateExpiry := dateExpiry,
      DpsTxnRef := dpsTxnRef, Success := success == "1", ResponseText := responseText,
      DpsBillingId := dpsBillingId, CardHolderName := cardHolderName))
  }

  /** The transaction fields, from `CurrencySettlement` to `MerchantReference`. */
  function DecodeTransaction(doc: Node, d: TransactionDetails, currencies: set<string>): (r: Result<TransactionDetails, Fault>)
    // Fails exactly when a mandatory tag is missing or an enumeration text names no variant; sets only its fields.
    ensures r.Success? <==>
      TagExists(doc, "CurrencySettlement") && GetString(doc, "CurrencySettlement").value in currencies &&
      TagExists(doc, "TxnData1") && TagExists(doc, "TxnData2") && TagExists(doc, "TxnData3") &&
      TagExists(doc, "TxnType") && Enums.ParseTransactionType(GetString(doc, "TxnType").value).Some? &&
      TagExists(doc, "CurrencyInput") && GetString(doc, "CurrencyInput").value in currencies &&
      TagExists(doc, "MerchantReference")
    // `PaymentMethod` falls back to "card payment" instead of throwing.
    ensures r.Success? ==> r.value == d.(
      CurrencySettlement := Enums.Currency(GetString(doc, "CurrencySettlement").value),
      PaymentMethod := if TagExists(doc, "PaymentMethod") then GetString(doc, "PaymentMethod").value else DefaultPaymentMethod,
      TxnData1 := GetString(doc, "TxnData1").value, TxnData2 := GetString(doc, "TxnData2").value,
      TxnData3 := GetString(doc, "TxnData3").value,
      TxnType := Enums.ParseTransactionType(GetString(doc, "TxnType").value).value,
      CurrencyInput := Enums.Currency(GetString(doc, "CurrencyInput").value),
      MerchantReference := GetString(doc, "MerchantReference").value)
  {
    var currencySettlement :- GetEnum(doc, "CurrencySettlement", s => Enums.ParseCurrency(currencies, s));
    var paymentMethod := StringOr(doc, "PaymentMethod", DefaultPaymentMethod);
    var txnData1 :- GetString(doc, "TxnData1");
    var txnData2 :- GetString(doc, "TxnData2");
    var txnData3 :- GetString(doc, "TxnData3");
    var txnType :- GetEnum(doc, "TxnType", Enums.ParseTransactionType);
    var currencyInput :- GetEnum(doc, "CurrencyInput", s => Enums.ParseCurrency(currencies, s));
    var merchantReference :- GetString(doc, "MerchantReference");
    Success(d.(
      CurrencySettlement := currencySettlement, PaymentMethod := paymentMethod,
      TxnData1 := txnData1, TxnData2 := txnData2, TxnData3 := txnData3, TxnType := txnType,
      CurrencyInput := currencyInput, MerchantReference := merchantReference))
  }

  /** The identifying fields, from `ClientIpAddress` to `Cvc2ResultCode`. */
  function DecodeIdentifiers(doc: Node, d: TransactionDetails): (r: Result<TransactionDetails, Fault>)
    // Fails exactly when one of its mandatory tags is missing; sets only its fields.
    ensures r.Success? <==>
      TagExists(doc, "TxnId") && TagExists(doc, "EmailAddress") && TagExists(doc, "BillingId") &&
      TagExists(doc, "TxnMac") && TagExists(doc, "CardNumber2") && TagExists(doc, "Cvc2ResultCode")
    // `ClientIpAddress` is null when its tag is absent instead of throwing.
    ensures r.Success? ==> r.value == d.(
      ClientIpAddress := if TagExists(doc, "ClientIpAddress") then Some(GetString(doc, "ClientIpAddress").value) else None,
      TxnId := GetString(doc, "TxnId").value, EmailAddress := GetString(doc, "EmailAddress").value,
      BillingId := GetString(doc, "BillingId").value, TxnMac := GetString(doc, "TxnMac").value,
      CardNumber2 := GetString(doc, "CardNumber2").value,
      Cvc2ResultCode := CvcResultFromToken(GetString(doc, "Cvc2ResultCode").value))
  {
    var clientIpAddress := OptionalString(doc, "ClientIpAddress");
    var txnId :- GetString(doc, "TxnId");
    var emailAddress :- GetString(doc, "EmailAddress");
    var billingId :- GetString(doc, "BillingId");
    var txnMac :- GetString(doc, "TxnMac");
    var cardNumber2 :- GetString(doc, "CardNumber2");
    var cvc :- GetCvcResultCode(doc, "Cvc2ResultCode");
    Success(d.(
      ClientIpAddress := clientIpAddress, TxnId := txnId, EmailAddress := emailAddress,
      BillingId := billingId, TxnMac := txnMac, CardNumber2 := cardNumber2, Cvc2ResultCode := cvc))
  }

  /**
   * The field mapping of `ProcessResponse` applied to a loaded reply, in the source's
   * order, starting from `new TransactionDetails()`; the first lookup that throws decides
   * the failure. `currencies` are the variant names of the settlement currency enumeration.
   */
  function DecodeDocument(doc: Node, currencies: set<string>): (r: Result<TransactionDetails, Fault>)
    // Succeeds exactly when none of the lookups throws.
    ensures r.Success? <==> Decodable(doc, currencies)
    // The two optional tags fall back to their defaults instead of throwing.
    ensures r.Success? ==> r.value.PaymentMethod == (if TagExists(doc, "PaymentMethod") then GetString(doc, "PaymentMethod").value else DefaultPaymentMethod)
    ensures r.Success? ==> r.value.ClientIpAddress == (if TagExists(doc, "ClientIpAddress") then Some(GetString(doc, "ClientIpAddress").value) else None)
    // The flags compare the text with "1"; the amount has its dots removed before parsing.
    ensures r.Success? ==> (r.value.ValidTransaction <==> FirstAttribute(doc, "Response", "valid").value == "1")
    ensures r.Success? ==> (r.value.Success <==> GetString(doc, "Success").value == "1")
    ensures r.Success? ==> Success(r.value.AmountSettlement) == ParseInt32(RemoveDots(GetString(doc, "AmountSettlement").value))
  {
    var d1 :- DecodeStatus(doc, NewTransactionDetails);
    var d2 :- DecodeCard(doc, d1);
    var d3 :- DecodeTransaction(doc, d2, currencies);
    DecodeIdentifiers(doc, d3)
  }

  /**
   * The record `new TransactionDetails()` starts from. Each field is overwritten before
   * `ProcessResponse` returns, so the values chosen here are never seen.
   */
  const NewTransactionDetails := TransactionDetails(
    false, 0, "", "", "", "", "", false, "", "", "", Enums.Currency(""), "", "", "", "",
    Enums.Purchase, Enums.Currency(""), "", None, "", "", "", "", "", Enums.Unknown)

  /** What `ProcessResponse` returns or throws for a reply. */
  function DecodeReply(reply: HttpReply, currencies: set<string>): (r: Result<TransactionDetails, Fault>)
    ensures reply.NoReply? ==> r == Failure(TransportFailed)
    ensures reply.Reply? && !reply.IsSuccessStatusCode ==> r == Failure(GatewayUnreachable)
    ensures reply.Reply? && reply.IsSuccessStatusCode && reply.Body.None? ==> r == Failure(MalformedXml)
    ensures reply.Reply? && reply.IsSuccessStatusCode && reply.Body.Some? ==> r == DecodeDocument(reply.Body.value, currencies)
  {
    match reply
    case NoReply => Failure(TransportFailed)
    case Reply(ok, body) =>
      if !ok then Failure(GatewayUnreachable)
      else match body
        case None => Failure(MalformedXml)
        case Some(doc) => DecodeDocument(doc, currencies)
  }

  // ---------------------------------------------------------------------------
  // The client

  /** Considering the next tag of `order` appends its field, if any. */
  lemma FieldsForPrefixStep(order: seq<RequestTag>, k: nat, emit: RequestTag -> seq<Field>)
    requires k < |order|
    ensures FieldsFor(order[..k + 1], emit) == FieldsFor(order[..k], emit) + emit(order[k])
  {
    assert order[..k + 1] == order[..k] + [order[k]];
    FieldsForSnoc(order[..k], order[k], emit);
  }

  /** Six consecutive tags of `order` contribute their fields in turn. */
  lemma FieldsForPrefixSix(order: seq<RequestTag>, k: nat, emit: RequestTag -> seq<Field>)
    requires k + 6 <= |order|
    ensures FieldsFor(order[..k + 6], emit) == FieldsFor(order[..k], emit)
      + emit(order[k]) + emit(order[k + 1]) + emit(order[k + 2])
      + emit(order[k + 3]) + emit(order[k + 4]) + emit(order[k + 5])
  {
    FieldsForPrefixStep(order, k, emit);
    FieldsForPrefixStep(order, k + 1, emit);
    FieldsForPrefixStep(order, k + 2, emit);
    FieldsForPrefixStep(order, k + 3, emit);
    FieldsForPrefixStep(order, k + 4, emit);
    FieldsForPrefixStep(order, k + 5, emit);
  }

  /** The first tag of `order` alone contributes its field. */
  lemma FieldsForFirst(order: seq<RequestTag>, emit: RequestTag -> seq<Field>)
    requires 1 <= |order|
    ensures FieldsFor(order[..1], emit) == emit(order[0])
  {
    assert order[..1] == [order[0]];
    assert [order[0]][1..] == [];
    assert emit(order[0]) + [] == emit(order[0]);
  }

  /** The first six tags of `order` contribute their fields in turn. */
  lemma FieldsForFirstSix(order: seq<RequestTag>, emit: RequestTag -> seq<Field>)
    requires 6 <= |order|
    ensures FieldsFor(order[..6], emit) ==
      emit(order[0]) + emit(order[1]) + emit(order[2])
      + emit(order[3]) + emit(order[4]) + emit(order[5])
  {
    FieldsForFirst(order, emit);
    FieldsForPrefixStep(order, 1, emit);
    FieldsForPrefixStep(order, 2, emit);
    FieldsForPrefixStep(order, 3, emit);
    FieldsForPrefixStep(order, 4, emit);
    FieldsForPrefixStep(order, 5, emit);
  }

  lemma SourceOrderAt()
    ensures |SourceOrder()| == 24
    ensures SourceOrder()[0] == PxPayUserId
    ensures SourceOrder()[1] == PxPayKey
    ensures SourceOrder()[2] == AmountInput
    ensures SourceOrder()[3] == BillingId
    ensures SourceOrder()[4] == CurrencyInput
    ensures SourceOrder()[5] == EmailAddress
    ensures SourceOrder()[6] == EnableAddBillCard
    ensures SourceOrder()[7] == RecurringMode
    ensures SourceOrder()[8] == MerchantReference
    ensures SourceOrder()[9] == DpsBillingId
    ensures SourceOrder()[10] == TxnData1
    ensures SourceOrder()[11] == TxnData2
    ensures SourceOrder()[12] == TxnData3
    ensures SourceOrder()[13] == TxnType
    ensures SourceOrder()[14] == TxnId
    ensures SourceOrder()[15] == UrlFail
    ensures SourceOrder()[16] == UrlSuccess
    ensures SourceOrder()[17] == UrlCallback
    ensures SourceOrder()[18] == Opt
    ensures SourceOrder()[19] == ClientType
    ensures SourceOrder()[20] == ForcePaymentMethod
    ensures SourceOrder()[21] == DebtRepaymentIndicator
    ensures SourceOrder()[22] == InstallmentNumber
    ensures SourceOrder()[23] == InstallmentCount
  {
  }

  /** `RequestFields` written out as the source appends: one conditional piece per tag. */
  lemma RequestFieldsUnfolded(c: Credentials, req: CreateTransactionRequest, tt: Enums.TransactionType)
    ensures RequestFields(c, req, tt) ==
      Emit(c, req, tt, PxPayUserId) + Emit(c, req, tt, PxPayKey) + Emit(c, req, tt, AmountInput) + Emit(c, req, tt, BillingId)
      + Emit(c, req, tt, CurrencyInput) + Emit(c, req, tt, EmailAddress) + Emit(c, req, tt, EnableAddBillCard) + Emit(c, req, tt, RecurringMode)
      + Emit(c, req, tt, MerchantReference) + Emit(c, req, tt, DpsBillingId) + Emit(c, req, tt, TxnData1) + Emit(c, req, tt, TxnData2)
      + Emit(c, req, tt, TxnData3) + Emit(c, req, tt, TxnType) + Emit(c, req, tt, TxnId) + Emit(c, req, tt, UrlFail)
      + Emit(c, req, tt, UrlSuccess) + Emit(c, req, tt, UrlCallback) + Emit(c, req, tt, Opt) + Emit(c, req, tt, ClientType)
      + Emit(c, req, tt, ForcePaymentMethod) + Emit(c, req, tt, DebtRepaymentIndicator) + Emit(c, req, tt, InstallmentNumber) + Emit(c, req, tt, InstallmentCount)
  {
    var o, emit := SourceOrder(), RequestEmit(c, req, tt);
    SourceOrderAt();
    assert o[..24] == o;
    FieldsForFirstSix(o, emit);
    FieldsForPrefixSix(o, 6, emit);
    FieldsForPrefixSix(o, 12, emit);
    FieldsForPrefixSix(o, 18, emit);
  }

  /** The pieces `Emit` gives for the billing id, currency, e-mail address and add-bill-card flag. */
  lemma EmitShapesBilling(c: Credentials, req: CreateTransactionRequest, tt: Enums.TransactionType)
    ensures Emit(c, req, tt, BillingId) == OptionalField(HasText(req.BillingId), BillingId, TextOf(req.BillingId))
    ensures Emit(c, req, tt, CurrencyInput) == [Field(CurrencyInput, Enums.CurrencyName(req.CurrencyInput))]
    ensures Emit(c, req, tt, EmailAddress) == OptionalField(HasText(req.EmailAddress), EmailAddress, TextOf(req.EmailAddress))
    ensures Emit(c, req, tt, EnableAddBillCard) == OptionalField(req.EnableAddBillCard, EnableAddBillCard, "1")
  {
  }

  /** The pieces `Emit` gives for the recurring mode, merchant reference, DPS billing id and first free-text field. */
  lemma EmitShapesMerchant(c: Credentials, req: CreateTransactionRequest, tt: Enums.TransactionType)
    ensures Emit(c, req, tt, RecurringMode) == OptionalField(req.RecurringMode.Some?, RecurringMode, ModeText(req.RecurringMode))
    ensures Emit(c, req, tt, MerchantReference) == OptionalField(HasText(req.MerchantReference), MerchantReference, TextOf(req.MerchantReference))
    ensures Emit(c, req, tt, DpsBillingId) == OptionalField(HasText(req.DpsBillingId), DpsBillingId, TextOf(req.DpsBillingId))
    ensures Emit(c, req, tt, TxnData1) == OptionalField(HasText(req.TxnData1), TxnData1, TextOf(req.TxnData1))
  {
  }

  /** The pieces `Emit` gives for the remaining free-text fields, the transaction type and the transaction id. */
  lemma EmitShapesData(c: Credentials, req: CreateTransactionRequest, tt: Enums.TransactionType)
    ensures Emit(c, req, tt, TxnData2) == OptionalField(HasText(req.TxnData2), TxnData2, TextOf(req.TxnData2))
    ensures Emit(c, req, tt, TxnData3) == OptionalField(HasText(req.TxnData3), TxnData3, TextOf(req.TxnData3))
    ensures Emit(c, req, tt, TxnType) == [Field(TxnType, Enums.TransactionTypeName(tt))]
    ensures Emit(c, req, tt, TxnId) == [Field(TxnId, TextOf(req.TxnId))]
  {
  }

  /** The pieces `Emit` gives for the return URLs, the callback URL and `Opt`. */
  lemma EmitShapesUrls(c: Credentials, req: CreateTransactionRequest, tt: Enums.TransactionType)
    ensures Emit(c, req, tt, UrlFail) == [Field(UrlFail, TextOf(req.UrlFail))]
    ensures Emit(c, req, tt, UrlSuccess) == [Field(UrlSuccess, TextOf(req.UrlSuccess))]
    ensures Emit(c, req, tt, UrlCallback) == OptionalField(HasText(req.UrlCallback), UrlCallback, TextOf(req.UrlCallback))
    ensures Emit(c, req, tt, Opt) == OptionalField(HasText(req.Opt), Opt, TextOf(req.Opt))
  {
  }

  /** The pieces `Emit` gives for the client type, forced payment method and debt-repayment flag. */
  lemma EmitShapesOptions(c: Credentials, req: CreateTransactionRequest, tt: Enums.TransactionType)
    ensures Emit(c, req, tt, ClientType) == OptionalField(req.ClientType.Some?, ClientType, ClientTypeText(req.ClientType))
    ensures Emit(c, req, tt, ForcePaymentMethod) == OptionalField(req.ForcePaymentMethod.Some?, ForcePaymentMethod, ForcePaymentMethodText(req.ForcePaymentMethod))
    ensures Emit(c, req, tt, DebtRepaymentIndicator) == OptionalField(req.DebtRepaymentIndicator, DebtRepaymentIndicator, "1")
  {
  }

  /** The pieces `Emit` gives for the installment number and count. */
  lemma EmitShapesInstallments(c: Credentials, req: CreateTransactionRequest, tt: Enums.TransactionType)
    ensures Emit(c, req, tt, InstallmentNumber) == OptionalField(req.InstallmentNumber.Some?, InstallmentNumber, CountText(req.InstallmentNumber))
    ensures Emit(c, req, tt, InstallmentCount) == OptionalField(req.InstallmentCount.Some?, InstallmentCount, CountText(req.InstallmentCount))
  {
  }

  lemma CredentialsAndAmount(c: Credentials, req: CreateTransactionRequest, tt: Enums.TransactionType)
    ensures Emit(c, req, tt, PxPayUserId) + Emit(c, req, tt, PxPayKey) + Emit(c, req, tt, AmountInput)
      == [Field(PxPayUserId, TextOf(c.UserId)), Field(PxPayKey, TextOf(c.Key)), Field(AmountInput, FormatAmount(req.Amount))]
  {
  }

  lemma RequestFieldsAsBuilt(c: Credentials, req: CreateTransactionRequest, tt: Enums.TransactionType)
    ensures RequestFields(c, req, tt) ==
      [Field(PxPayUserId, TextOf(c.UserId)), Field(PxPayKey, TextOf(c.Key)), Field(AmountInput, FormatAmount(req.Amount))]
      + OptionalField(HasText(req.BillingId), BillingId, TextOf(req.BillingId))
      + [Field(CurrencyInput, Enums.CurrencyName(req.CurrencyInput))]
      + OptionalField(HasText(req.EmailAddress), EmailAddress, TextOf(req.EmailAddress))
      + OptionalField(req.EnableAddBillCard, EnableAddBillCard, "1")
      + OptionalField(req.RecurringMode.Some?, RecurringMode, ModeText(req.RecurringMode))
      + OptionalField(HasText(req.MerchantReference), MerchantReference, TextOf(req.MerchantReference))
      + OptionalField(HasText(req.DpsBillingId), DpsBillingId, TextOf(req.DpsBillingId))
      + OptionalField(HasText(req.TxnData1), TxnData1, TextOf(req.TxnData1))
      + OptionalField(HasText(req.TxnData2), TxnData2, TextOf(req.TxnData2))
      + OptionalField(HasText(req.TxnData3), TxnData3, TextOf(req.TxnData3))
      + [Field(TxnType, Enums.TransactionTypeName(tt))]
      + [Field(TxnId, TextOf(req.TxnId))]
      + [Field(UrlFail, TextOf(req.UrlFail))]
      + [Field(UrlSuccess, TextOf(req.UrlSuccess))]
      + OptionalField(HasText(req.UrlCallback), UrlCallback, TextOf(req.UrlCallback))
      + OptionalField(HasText(req.Opt), Opt, TextOf(req.Opt))
      + OptionalField(req.ClientType.Some?, ClientType, ClientTypeText(req.ClientType))
      + OptionalField(req.ForcePaymentMethod.Some?, ForcePaymentMethod, ForcePaymentMethodText(req.ForcePaymentMethod))
      + OptionalField(req.DebtRepaymentIndicator, DebtRepaymentIndicator, "1")
      + OptionalField(req.InstallmentNumber.Some?, InstallmentNumber, CountText(req.InstallmentNumber))
      + OptionalField(req.InstallmentCount.Some?, InstallmentCount, CountText(req.InstallmentCount))
  {
    RequestFieldsUnfolded(c, req, tt);
    CredentialsAndAmount(c, req, tt);
    EmitShapesBilling(c, req, tt);
    EmitShapesMerchant(c, req, tt);
    EmitShapesData(c, req, tt);
    EmitShapesUrls(c, req, tt);
    EmitShapesOptions(c, req, tt);
    EmitShapesInstallments(c, req, tt);
  }

  /** Reads the `valid` attribute and the settlement amount into `details`. */
  method ReadStatus(doc: Node, details: TransactionDetails) returns (r: Result<TransactionDetails, Fault>)
    ensures r == DecodeStatus(doc, details)
  {
    var d := details;
    var valid :- FirstAttribute(doc, "Response", "valid");
    d := d.(ValidTransaction := valid == "1");
    var amountText :- GetString(doc, "AmountSettlement");
    var amount :- ParseAmount(amountText);
    d := d.(AmountSettlement := amount);
    r := Success(d);
  }

  /** Reads the card and outcome fields into `details`. */
  method ReadCard(doc: Node, details: TransactionDetails) returns (r: Result<TransactionDetails, Fault>)
    ensures r == DecodeCard(doc, details)
  {
    var d := details;
    var authCode :- GetString(doc, "AuthCode");
    d := d.(AuthCode := authCode);
    var cardName :- GetString(doc, "CardName");
    d := d.(CardName := cardName);
    var cardNumber :- GetString(doc, "CardNumber");
    d := d.(CardNumber := cardNumber);
    var dateExpiry :- GetString(doc, "DateExpiry");
    d := d.(DateExpiry := dateExpiry);
    var dpsTxnRef :- GetString(doc, "DpsTxnRef");
    d := d.(DpsTxnRef := dpsTxnRef);
    var success :- GetString(doc, "Success");
    d := d.(Success := success == "1");
    var responseText :- GetString(doc, "ResponseText");
    d := d.(ResponseText := responseText);
    var dpsBillingId :- GetString(doc, "DpsBillingId");
    d := d.(DpsBillingId := dpsBillingId);
    var cardHolderName :- GetString(doc, "CardHolderName");
    d := d.(CardHolderName := cardHolderName);
    r := Success(d);
  }

  /** Reads the transaction fields into `details`. */
  method ReadTransaction(doc: Node, details: TransactionDetails, currencies: set<string>) returns (r: Result<TransactionDetails, Fault>)
    ensures r == DecodeTransaction(doc, details, currencies)
  {
    var d := details;
    var currencySettlement :- GetEnum(doc, "CurrencySettlement", s => Enums.ParseCurrency(currencies, s));
    d := d.(CurrencySettlement := currencySettlement);
    d := d.(PaymentMethod := DefaultPaymentMethod);
    if TagExists(doc, "PaymentMethod") {
      d := d.(PaymentMethod := GetString(doc, "PaymentMethod").value);
    }
    var txnData1 :- GetString(doc, "TxnData1");
    d := d.(TxnData1 := txnData1);
    var txnData2 :- GetString(doc, "TxnData2");
    d := d.(TxnData2 := txnData2);
    var txnData3 :- GetString(doc, "TxnData3");
    d := d.(TxnData3 := txnData3);
    var txnType :- GetEnum(doc, "TxnType", Enums.ParseTransactionType);
    d := d.(TxnType := txnType);
    var currencyInput :- GetEnum(doc, "CurrencyInput", s => Enums.ParseCurrency(currencies, s));
    d := d.(CurrencyInput := currencyInput);
    var merchantReference :- GetString(doc, "MerchantReference");
    d := d.(MerchantReference := merchantReference);
    r := Success(d);
  }

  /** Reads the identifying fields into `details`. */
  method ReadIdentifiers(doc: Node, details: TransactionDetails) returns (r: Result<TransactionDetails, Fault>)
    ensures r == DecodeIdentifiers(doc, details)
  {
    var d := details;
    d := d.(ClientIpAddress := None);
    if TagExists(doc, "ClientIpAddress") {
      d := d.(ClientIpAddress := Some(GetString(doc, "ClientIpAddress").value));
    }
    var txnId :- GetString(doc, "TxnId");
    d := d.(TxnId := txnId);
    var emailAddress :- GetString(doc, "EmailAddress");
    d := d.(EmailAddress := emailAddress);
    var billingId :- GetString(doc, "BillingId");
    d := d.(BillingId := billingId);
    var txnMac :- GetString(doc, "TxnMac");
    d := d.(TxnMac := txnMac);
    var cardNumber2 :- GetString(doc, "CardNumber2");
    d := d.(CardNumber2 := cardNumber2);
    var cvc :- GetCvcResultCode(doc, "Cvc2ResultCode");
    d := d.(Cvc2ResultCode := cvc);
    r := Success(d);
  }

  /** `PxPayClient`: holds the credentials; every call posts through `send`. */
  class PxPayClient {
    const PxPayUserId: Option<string>
    const PxPayKey: Option<string>
    /** Kept for fidelity; the TLS switch it guards is not modelled. */
    const UseTls12: bool

    constructor(pxPayUserId: Option<string>, pxPayKey: Option<string>, useTls12: bool := true)
      ensures PxPayUserId == pxPayUserId && PxPayKey == pxPayKey && UseTls12 == useTls12
    {
      PxPayUserId := pxPayUserId;
      PxPayKey := pxPayKey;
      UseTls12 := useTls12;
    }

    function Credentials(): Credentials
    {
      RequestEncoder.Credentials(PxPayUserId, PxPayKey)
    }

    /**
     * `BuildTransactionXmlRequest`: the required elements, then each optional one whose
     * value is supplied, in source order, under `GenerateRequest`.
     */
    method BuildTransactionXmlRequest(transactionRequest: CreateTransactionRequest, transactionType: Enums.TransactionType)
      returns (xmlRequest: Node)
      ensures xmlRequest == GenerateRequest(Credentials(), transactionRequest, transactionType)
    {
      var req := transactionRequest;
      var fields: seq<Field> := [
        Field(RequestTag.PxPayUserId, TextOf(PxPayUserId)),
        Field(RequestTag.PxPayKey, TextOf(PxPayKey)),
        Field(RequestTag.AmountInput, FormatAmount(req.Amount))];
      fields := fields + OptionalField(HasText(req.BillingId), RequestTag.BillingId, TextOf(req.BillingId));
      fields := fields + [Field(RequestTag.CurrencyInput, Enums.CurrencyName(req.CurrencyInput))];
      fields := fields + OptionalField(HasText(req.EmailAddress), RequestTag.EmailAddress, TextOf(req.EmailAddress));
      fields := fields + OptionalField(req.EnableAddBillCard, RequestTag.EnableAddBillCard, "1");
      fields := fields + OptionalField(req.RecurringMode.Some?, RequestTag.RecurringMode, ModeText(req.RecurringMode));
      fields := fields + OptionalField(HasText(req.MerchantReference), RequestTag.MerchantReference, TextOf(req.MerchantReference));
      fields := fields + OptionalField(HasText(req.DpsBillingId), RequestTag.DpsBillingId, TextOf(req.DpsBillingId));
      fields := fields + OptionalField(HasText(req.TxnData1), RequestTag.TxnData1, TextOf(req.TxnData1));
      fields := fields + OptionalField(HasText(req.TxnData2), RequestTag.TxnData2, TextOf(req.TxnData2));
      fields := fields + OptionalField(HasText(req.TxnData3), RequestTag.TxnData3, TextOf(req.TxnData3));
      fields := fields + [Field(RequestTag.TxnType, Enums.TransactionTypeName(transactionType))];
      fields := fields + [Field(RequestTag.TxnId, TextOf(req.TxnId))];
      fields := fields + [Field(RequestTag.UrlFail, TextOf(req.UrlFail))];
      fields := fields + [Field(RequestTag.UrlSuccess, TextOf(req.UrlSuccess))];
      fields := fields + OptionalField(HasText(req.UrlCallback), RequestTag.UrlCallback, TextOf(req.UrlCallback));
      fields := fields + OptionalField(HasText(req.Opt), RequestTag.Opt, TextOf(req.Opt));
      fields := fields + OptionalField(req.ClientType.Some?, RequestTag.ClientType, ClientTypeText(req.ClientType));
      fields := fields + OptionalField(req.ForcePaymentMethod.Some?, RequestTag.ForcePaymentMethod, ForcePaymentMethodText(req.ForcePaymentMethod));
      fields := fields + OptionalField(req.DebtRepaymentIndicator, RequestTag.DebtRepaymentIndicator, "1");
      fields := fields + OptionalField(req.InstallmentNumber.Some?, RequestTag.InstallmentNumber, CountText(req.InstallmentNumber));
      fields := fields + OptionalField(req.InstallmentCount.Some?, RequestTag.InstallmentCount, CountText(req.InstallmentCount));
      RequestFieldsAsBuilt(Credentials(), req, transactionType);
      xmlRequest := Document(GenerateRequestRoot, fields);
    }

    /**
     * `CreateTransaction`: builds the request, posts it, and fills in a result that starts
     * out unsuccessful; a step that throws is caught and reported with the exception prefix.
     */
    method CreateTransaction(transactionRequest: CreateTransactionRequest, transactionType: Enums.TransactionType,
                             send: Node -> HttpReply, uriParses: string -> bool)
      returns (result: CreateTransactionResult)
      ensures result == CreateOutcome(send(GenerateRequest(Credentials(), transactionRequest, transactionType)), uriParses)
    {
      var xmlRequest := BuildTransactionXmlRequest(transactionRequest, transactionType);
      result := CreateTransactionResult(false, None, None);
      // The body of `try`; `thrown` is the exception it raises, if any.
      var thrown: Option<Fault> := None;
      var httpResponse := send(xmlRequest);
      if httpResponse.NoReply? {
        thrown := Some(TransportFailed);
      } else if !httpResponse.IsSuccessStatusCode {
        result := result.(Error := Some(ErrorDetails(UnreachableMessage)));
        return;
      } else if httpResponse.Body.None? {
        thrown := Some(MalformedXml);
      } else {
        var response := httpResponse.Body.value;
        var isValid := FirstAttribute(response, "Request", "valid");
        if isValid.Failure? {
          thrown := Some(isValid.error);
        } else if isValid.value != "1" {
          result := result.(Error := Some(ErrorDetails(InvalidRequestMessage)));
          return;
        } else if TagExists(response, "Reco") {
          var reco := GetString(response, "Reco");
          var responseText := GetString(response, "ResponseText");
          if responseText.Failure? {
            thrown := Some(responseText.error);
          } else {
            result := result.(Error := Some(ErrorDetails(RecoMessage(reco.value, responseText.value))));
          }
        } else {
          var uri := GetString(response, "URI");
          if uri.Failure? {
            thrown := Some(uri.error);
          } else if !uriParses(uri.value) {
            thrown := Some(MalformedUri(uri.value));
          } else {
            result := result.(SecurePaymentUrl := Some(uri.value));
            result := result.(IsSuccessful := true);
          }
        }
      }
      if thrown.Some? {
        result := result.(Error := Some(ErrorDetails(ExceptionPrefix + FaultMessage(thrown.value))));
      }
    }

    /** `CreatePurchase`: a transaction of type `Purchase`. */
    method CreatePurchase(transactionRequest: CreateTransactionRequest, send: Node -> HttpReply, uriParses: string -> bool)
      returns (result: CreateTransactionResult)
      ensures result == CreateOutcome(send(GenerateRequest(Credentials(), transactionRequest, Enums.Purchase)), uriParses)
    {
      result := CreateTransaction(transactionRequest, Enums.Purchase, send, uriParses);
    }

    /** `CreateAuth`: a transaction of type `Auth`. */
    method CreateAuth(transactionRequest: CreateTransactionRequest, send: Node -> HttpReply, uriParses: string -> bool)
      returns (result: CreateTransactionResult)
      ensures result == CreateOutcome(send(GenerateRequest(Credentials(), transactionRequest, Enums.Auth)), uriParses)
    {
      result := CreateTransaction(transactionRequest, Enums.Auth, send, uriParses);
    }

    /**
     * `ProcessResponse`: posts the response code and copies the reply's fields into a
     * fresh `TransactionDetails` one by one; the first lookup that throws is the failure.
     */
    method ProcessResponse(responseCode: Option<string>, send: Node -> HttpReply, currencies: set<string>)
      returns (r: Result<TransactionDetails, Fault>)
      ensures r == DecodeReply(send(ProcessResponseRequest(Credentials(), responseCode)), currencies)
    {
      var xmlRequest := ProcessResponseRequest(Credentials(), responseCode);
      var httpResponse := send(xmlRequest);
      if httpResponse.NoReply? {
        return Failure(TransportFailed);
      }
      if !httpResponse.IsSuccessStatusCode {
        return Failure(GatewayUnreachable);
      }
      if httpResponse.Body.None? {
        return Failure(MalformedXml);
      }
      var response := httpResponse.Body.value;
      var d := NewTransactionDetails;
      d :- ReadStatus(response, d);
      d :- ReadCard(response, d);
      d :- ReadTransaction(response, d, currencies);
      d :- ReadIdentifiers(response, d);
      r := Success(d);
    }
  }
}
