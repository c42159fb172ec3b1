/**
 * A reply document for a transaction, shaped like the `Response` the gateway sends back
 * to `ProcessResponse`: a `Response` root with a `valid` attribute and one child per field
 * that `ProcessResponse` reads. Reading such a reply back gives the transaction again.
 */
module ReplyEcho {
  import Wrappers
  import opened XmlHelper
  import opened Formatting
  import opened Models
  import opened PxPay
  import Enums

  const ResponseRoot := "Response"

  /** The elements of a reply that `ProcessResponse` reads, in the order it reads them. */
  datatype ReplyTag =
    | AmountSettlement | AuthCode | CardName | CardNumber | DateExpiry | DpsTxnRef | Success
    | ResponseText | DpsBillingId | CardHolderName | CurrencySettlement | PaymentMethod
    | TxnData1 | TxnData2 | TxnData3 | TxnType | CurrencyInput | MerchantReference
    | ClientIpAddress | TxnId | EmailAddress | BillingId | TxnMac | CardNumber2 | Cvc2ResultCode

  /** The element name of each tag. */
  function ReplyTagName(t: ReplyTag): string
  {
    match t
    case AmountSettlement => "AmountSettlement"
    case AuthCode => "AuthCode"
    case CardName => "CardName"
    case CardNumber => "CardNumber"
    case DateExpiry => "DateExpiry"
    case DpsTxnRef => "DpsTxnRef"
    case Success => "Success"
    case ResponseText => "ResponseText"
    case DpsBillingId => "DpsBillingId"
    case CardHolderName => "CardHolderName"
    case CurrencySettlement => "CurrencySettlement"
    case PaymentMethod => "PaymentMethod"
    case TxnData1 => "TxnData1"
    case TxnData2 => "TxnData2"
    case TxnData3 => "TxnData3"
    case TxnType => "TxnType"
    case CurrencyInput => "CurrencyInput"
    case MerchantReference => "MerchantReference"
    case ClientIpAddress => "ClientIpAddress"
    case TxnId => "TxnId"
    case EmailAddress => "EmailAddress"
    case BillingId => "BillingId"
    case TxnMac => "TxnMac"
    case CardNumber2 => "CardNumber2"
    case Cvc2ResultCode => "Cvc2ResultCode"
  }

  /** A name's length and its last two characters: no two reply names, and not the root, share all three. */
  function ReplyNameKey(n: string): (int, char, char)
  {
    if |n| < 2 then (|n|, ' ', ' ') else (|n|, n[|n| - 2], n[|n| - 1])
  }

  /** The tag whose name has the given key, if any. */
  function ReplyTagOfKey(key: (int, char, char)): Wrappers.Option<ReplyTag>
  {
    var (length, a, b) := key;
    match length
    case 5 => if a == 'I' && b == 'd' then Wrappers.Some(TxnId) else Wrappers.None
    case 6 => if a == 'a' && b == 'c' then Wrappers.Some(TxnMac) else Wrappers.None
    case 7 =>
      if a == 's' && b == 's' then Wrappers.Some(Success)
      else if a == 'p' && b == 'e' then Wrappers.Some(TxnType)
      else Wrappers.None
    case 8 =>
      if a == 'd' && b == 'e' then Wrappers.Some(AuthCode)
      else if a == 'm' && b == 'e' then Wrappers.Some(CardName)
      else if a == 'a' && b == '1' then Wrappers.Some(TxnData1)
      else if a == 'a' && b == '2' then Wrappers.Some(TxnData2)
      else if a == 'a' && b == '3' then Wrappers.Some(TxnData3)
      else Wrappers.None
    case 9 =>
      if a == 'e' && b == 'f' then Wrappers.Some(DpsTxnRef)
      else if a == 'I' && b == 'd' then Wrappers.Some(BillingId)
      else Wrappers.None
    case 10 =>
      if a == 'e' && b == 'r' then Wrappers.Some(CardNumber)
      else if a == 'r' && b == 'y' then Wrappers.Some(DateExpiry)
      else Wrappers.None
    case 11 => if a == 'r' && b == '2' then Wrappers.Some(CardNumber2) else Wrappers.None
    case 12 =>
      if a == 'x' && b == 't' then Wrappers.Some(ResponseText)
      else if a == 'I' && b == 'd' then Wrappers.Some(DpsBillingId)
      else if a == 's' && b == 's' then Wrappers.Some(EmailAddress)
      else Wrappers.None
    case 13 =>
      if a == 'o' && b == 'd' then Wrappers.Some(PaymentMethod)
      else if a == 'u' && b == 't' then Wrappers.Some(CurrencyInput)
      else Wrappers.None
    case 14 =>
      if a == 'm' && b == 'e' then Wrappers.Some(CardHolderName)
      else if a == 'd' && b == 'e' then Wrappers.Some(Cvc2ResultCode)
      else Wrappers.None
    case 15 => if a == 's' && b == 's' then Wrappers.Some(ClientIpAddress) else Wrappers.None
    case 16 => if a == 'n' && b == 't' then Wrappers.Some(AmountSettlement) else Wrappers.None
    case 17 => if a == 'c' && b == 'e' then Wrappers.Some(MerchantReference) else Wrappers.None
    case 18 => if a == 'n' && b == 't' then Wrappers.Some(CurrencySettlement) else Wrappers.None
    case _ => Wrappers.None
  }

  /** Each tag is recovered from the key of its name. */
  lemma ReplyTagOfName(t: ReplyTag)
    ensures ReplyTagOfKey(ReplyNameKey(ReplyTagName(t))) == Wrappers.Some(t)
  {
    match t
    case AmountSettlement => assert ReplyNameKey("AmountSettlement") == (16, 'n', 't');
    case AuthCode => assert ReplyNameKey("AuthCode") == (8, 'd', 'e');
    case CardName => assert ReplyNameKey("CardName") == (8, 'm', 'e');
    case CardNumber => assert ReplyNameKey("CardNumber") == (10, 'e', 'r');
    case DateExpiry => assert ReplyNameKey("DateExpiry") == (10, 'r', 'y');
    case DpsTxnRef => assert ReplyNameKey("DpsTxnRef") == (9, 'e', 'f');
    case Success => assert ReplyNameKey("Success") == (7, 's', 's');
    case ResponseText => assert ReplyNameKey("ResponseText") == (12, 'x', 't');
    case DpsBillingId => assert ReplyNameKey("DpsBillingId") == (12, 'I', 'd');
    case CardHolderName => assert ReplyNameKey("CardHolderName") == (14, 'm', 'e');
    case CurrencySettlement => assert ReplyNameKey("CurrencySettlement") == (18, 'n', 't');
    case PaymentMethod => assert ReplyNameKey("PaymentMethod") == (13, 'o', 'd');
    case TxnData1 => assert ReplyNameKey("TxnData1") == (8, 'a', '1');
    case TxnData2 => assert ReplyNameKey("TxnData2") == (8, 'a', '2');
    case TxnData3 => assert ReplyNameKey("TxnData3") == (8, 'a', '3');
    case TxnType => assert ReplyNameKey("TxnType") == (7, 'p', 'e');
    case CurrencyInput => assert ReplyNameKey("CurrencyInput") == (13, 'u', 't');
    case MerchantReference => assert ReplyNameKey("MerchantReference") == (17, 'c', 'e');
    case ClientIpAddress => assert ReplyNameKey("ClientIpAddress") == (15, 's', 's');
    case TxnId => assert ReplyNameKey("TxnId") == (5, 'I', 'd');
    case EmailAddress => assert ReplyNameKey("EmailAddress") == (12, 's', 's');
    case BillingId => assert ReplyNameKey("BillingId") == (9, 'I', 'd');
    case TxnMac => assert ReplyNameKey("TxnMac") == (6, 'a', 'c');
    case CardNumber2 => assert ReplyNameKey("CardNumber2") == (11, 'r', '2');
    case Cvc2ResultCode => assert ReplyNameKey("Cvc2ResultCode") == (14, 'd', 'e');
  }

  /** No child is named like the root. */
  lemma ReplyTagNotRoot(t: ReplyTag)
    ensures ReplyTagName(t) != ResponseRoot
  {
    ReplyTagOfName(t);
    assert ReplyTagOfKey(ReplyNameKey(ResponseRoot)) == Wrappers.None;
  }

  /**
   * The text the reply for `d` carries in the element of `t`: the amount with its decimal
   * point, the flag as "1" or "0", the enumerations by variant name.
   */
  function EchoText(d: TransactionDetails, t: ReplyTag): string
  {
    match t
    case AmountSettlement => FormatAmount(d.AmountSettlement)
    case AuthCode => d.AuthCode
    case CardName => d.CardName
    case CardNumber => d.CardNumber
    case DateExpiry => d.DateExpiry
    case DpsTxnRef => d.DpsTxnRef
    case Success => if d.Success then "1" else "0"
    case ResponseText => d.ResponseText
    case DpsBillingId => d.DpsBillingId
    case CardHolderName => d.CardHolderName
    case CurrencySettlement => Enums.CurrencyName(d.CurrencySettlement)
    case PaymentMethod => d.PaymentMethod
    case TxnData1 => d.TxnData1
    case TxnData2 => d.TxnData2
    case TxnData3 => d.TxnData3
    case TxnType => Enums.TransactionTypeName(d.TxnType)
    case CurrencyInput => Enums.CurrencyName(d.CurrencyInput)
    case MerchantReference => d.MerchantReference
    case ClientIpAddress => if d.ClientIpAddress.Some? then d.ClientIpAddress.value else ""
    case TxnId => d.TxnId
    case EmailAddress => d.EmailAddress
    case BillingId => d.BillingId
    case TxnMac => d.TxnMac
    case CardNumber2 => d.CardNumber2
    case Cvc2ResultCode => CvcToken(d.Cvc2ResultCode)
  }

  /** Whether the reply for `d` has an element for `t`: every tag but an absent client address. */
  predicate Carries(d: TransactionDetails, t: ReplyTag)
  {
    t != ClientIpAddress || d.ClientIpAddress.Some?
  }

  /** The child for `t`, if the reply carries one. */
  function EchoPair(d: TransactionDetails, t: ReplyTag): seq<(string, string)>
  {
    if Carries(d, t) then [(ReplyTagName(t), EchoText(d, t))] else []
  }

  /** The tag at position `i` of the reading order (positions past the end repeat the last tag). */
  function ReplyTagAt(i: int): ReplyTag
  {
    if i <= 0 then AmountSettlement
    else if i == 1 then AuthCode
    else if i == 2 then CardName
    else if i == 3 then CardNumber
    else if i == 4 then DateExpiry
    else if i == 5 then DpsTxnRef
    else if i == 6 then Success
    else if i == 7 then ResponseText
    else if i == 8 then DpsBillingId
    else if i == 9 then CardHolderName
    else if i == 10 then CurrencySettlement
    else if i == 11 then PaymentMethod
    else if i == 12 then TxnData1
    else if i == 13 then TxnData2
    else if i == 14 then TxnData3
    else if i == 15 then TxnType
    else if i == 16 then CurrencyInput
    else if i == 17 then MerchantReference
    else if i == 18 then ClientIpAddress
    else if i == 19 then TxnId
    else if i == 20 then EmailAddress
    else if i == 21 then BillingId
    else if i == 22 then TxnMac
    else if i == 23 then CardNumber2
    else Cvc2ResultCode
  }

  const ReplyTagCount := 25

  /** The position of each tag in the reading order. */
  function ReplyRank(t: ReplyTag): (r: nat)
    ensures r < ReplyTagCount && ReplyTagAt(r) == t
  {
    match t
    case AmountSettlement => 0
    case AuthCode => 1
    case CardName => 2
    case CardNumber => 3
    case DateExpiry => 4
    case DpsTxnRef => 5
    case Success => 6
    case ResponseText => 7
    case DpsBillingId => 8
    case CardHolderName => 9
    case CurrencySettlement => 10
    case PaymentMethod => 11
    case TxnData1 => 12
    case TxnData2 => 13
    case TxnData3 => 14
    case TxnType => 15
    case CurrencyInput => 16
    case MerchantReference => 17
    case ClientIpAddress => 18
    case TxnId => 19
    case EmailAddress => 20
    case BillingId => 21
    case TxnMac => 22
    case CardNumber2 => 23
    case Cvc2ResultCode => 24
  }

  /** The tags in the order `ProcessResponse` reads them. */
  function ReplyOrder(): seq<ReplyTag>
  {
    seq(ReplyTagCount, ReplyTagAt)
  }

  /** Every tag has a place in the reading order. */
  lemma InReplyOrder(t: ReplyTag)
    ensures t in ReplyOrder()
  {
    assert ReplyOrder()[ReplyRank(t)] == t;
  }

  /** The children for the tags of `order`, in that order. */
  function EchoFor(d: TransactionDetails, order: seq<ReplyTag>): seq<(string, string)>
  {
    if order == [] then [] else EchoPair(d, order[0]) + EchoFor(d, order[1..])
  }

  /** The children of the reply for `d`, in the order `ProcessResponse` reads them. */
  function EchoFields(d: TransactionDetails): seq<(string, string)>
  {
    EchoFor(d, ReplyOrder())
  }

  /** The reply for `d`. */
  function EchoResponse(d: TransactionDetails): Node
  {
    Element(ResponseRoot, map["valid" := if d.ValidTransaction then "1" else "0"], Leaves(EchoFields(d)))
  }

  /** A child is the pair of a carried tag: the tag its name keys to. */
  predicate EchoPairOf(d: TransactionDetails, p: (string, string))
  {
    var t := ReplyTagOfKey(ReplyNameKey(p.0));
    t.Some? && Carries(d, t.value) && p == (ReplyTagName(t.value), EchoText(d, t.value))
  }

  /** The child for a tag, if any, is the pair of a carried tag. */
  lemma EchoPairIsOf(d: TransactionDetails, t: ReplyTag)
    ensures forall j :: 0 <= j < |EchoPair(d, t)| ==> EchoPairOf(d, EchoPair(d, t)[j])
  {
    if Carries(d, t) {
      ReplyTagOfName(t);
      assert EchoPair(d, t)[0] == (ReplyTagName(t), EchoText(d, t));
    }
  }

  /** Two runs of pairs of carried tags make one. */
  lemma EchoPairsAppend(d: TransactionDetails, head: seq<(string, string)>, rest: seq<(string, string)>)
    requires forall j :: 0 <= j < |head| ==> EchoPairOf(d, head[j])
    requires forall j :: 0 <= j < |rest| ==> EchoPairOf(d, rest[j])
    ensures forall j :: 0 <= j < |head + rest| ==> EchoPairOf(d, (head + rest)[j])
  {
    forall j | 0 <= j < |head + rest| ensures EchoPairOf(d, (head + rest)[j]) {
      if j >= |head| {
        assert (head + rest)[j] == rest[j - |head|];
      }
    }
  }

  /** Every child is the pair of a carried tag. */
  lemma {:induction false} EchoForPairs(d: TransactionDetails, order: seq<ReplyTag>)
    ensures forall j :: 0 <= j < |EchoFor(d, order)| ==> EchoPairOf(d, EchoFor(d, order)[j])
  {
    if order != [] {
      EchoForPairs(d, order[1..]);
      EchoPairIsOf(d, order[0]);
      EchoPairsAppend(d, EchoPair(d, order[0]), EchoFor(d, order[1..]));
    }
  }

  /** Every carried tag of `order` has its child. */
  lemma {:induction false} EchoForHas(d: TransactionDetails, order: seq<ReplyTag>, t: ReplyTag)
    requires Carries(d, t) && t in order
    ensures exists k :: 0 <= k < |EchoFor(d, order)| && EchoFor(d, order)[k].0 == ReplyTagName(t)
  {
    var head: seq<(string, string)>, rest: seq<(string, string)> := EchoPair(d, order[0]), EchoFor(d, order[1..]);
    assert EchoFor(d, order) == head + rest;
    if order[0] == t {
      assert head == [(ReplyTagName(t), EchoText(d, t))];
      assert (head + rest)[0] == head[0];
    } else {
      assert t in order[1..];
      EchoForHas(d, order[1..], t);
      var k :| 0 <= k < |rest| && rest[k].0 == ReplyTagName(t);
      assert (head + rest)[|head| + k] == rest[k];
    }
  }

  /** Every child named like `t` carries the text of `t`, and `t` is not absent. */
  lemma EchoPairNamed(d: TransactionDetails, p: (string, string), t: ReplyTag)
    requires EchoPairOf(d, p) && p.0 == ReplyTagName(t)
    ensures p.1 == EchoText(d, t) && Carries(d, t)
  {
    ReplyTagOfName(t);
  }

  /** Every carried tag is found in the reply with its text. */
  lemma EchoLookup(d: TransactionDetails, t: ReplyTag)
    requires Carries(d, t)
    ensures GetString(EchoResponse(d), ReplyTagName(t)) == Wrappers.Success(EchoText(d, t))
  {
    var fs := EchoFields(d);
    EchoForPairs(d, ReplyOrder());
    InReplyOrder(t);
    EchoForHas(d, ReplyOrder(), t);
    var k :| 0 <= k < |fs| && fs[k].0 == ReplyTagName(t);
    forall i | 0 <= i < |fs| && fs[i].0 == ReplyTagName(t) ensures fs[i].1 == EchoText(d, t) {
      EchoPairNamed(d, fs[i], t);
    }
    ReplyTagNotRoot(t);
    FlatDocumentValued(ResponseRoot, map["valid" := if d.ValidTransaction then "1" else "0"], fs, ReplyTagName(t), EchoText(d, t), k);
  }

  /** Without a client address the reply has no `ClientIpAddress` element. */
  lemma EchoNoAddress(d: TransactionDetails)
    requires d.ClientIpAddress.None?
    ensures !TagExists(EchoResponse(d), ReplyTagName(ClientIpAddress))
  {
    var fs := EchoFields(d);
    EchoForPairs(d, ReplyOrder());
    forall i | 0 <= i < |fs| ensures fs[i].0 != ReplyTagName(ClientIpAddress) {
      if fs[i].0 == ReplyTagName(ClientIpAddress) {
        EchoPairNamed(d, fs[i], ClientIpAddress);
      }
    }
    ReplyTagNotRoot(ClientIpAddress);
    FlatDocumentNone(ResponseRoot, map["valid" := if d.ValidTransaction then "1" else "0"], fs, ReplyTagName(ClientIpAddress));
  }

  /** The root carries the validity flag. */
  lemma EchoValid(d: TransactionDetails)
    ensures FirstAttribute(EchoResponse(d), ResponseRoot, "valid") == Wrappers.Success(if d.ValidTransaction then "1" else "0")
  {
    assert ElementsByTagName(EchoResponse(d), ResponseRoot)[0] == EchoResponse(d);
  }

  /** The fields the status step reads: the validity flag on the first `Response` element and the amount. */
  predicate EchoesStatus(doc: Node, y: TransactionDetails)
  {
    && FirstAttribute(doc, ResponseRoot, "valid") == Wrappers.Success(if y.ValidTransaction then "1" else "0")
    && GetString(doc, "AmountSettlement") == Wrappers.Success(FormatAmount(y.AmountSettlement))
  }

  /** The fields the card step reads; the flag is "1" or "0". */
  predicate EchoesCard(doc: Node, y: TransactionDetails)
  {
    && GetString(doc, "AuthCode") == Wrappers.Success(y.AuthCode)
    && GetString(doc, "CardName") == Wrappers.Success(y.CardName)
    && GetString(doc, "CardNumber") == Wrappers.Success(y.CardNumber)
    && GetString(doc, "DateExpiry") == Wrappers.Success(y.DateExpiry)
    && GetString(doc, "DpsTxnRef") == Wrappers.Success(y.DpsTxnRef)
    && GetString(doc, "Success") == Wrappers.Success(if y.Success then "1" else "0")
    && GetString(doc, "ResponseText") == Wrappers.Success(y.ResponseText)
    && GetString(doc, "DpsBillingId") == Wrappers.Success(y.DpsBillingId)
    && GetString(doc, "CardHolderName") == Wrappers.Success(y.CardHolderName)
  }

  /** The fields the transaction step reads; the enumerations by variant name. */
  predicate EchoesTransaction(doc: Node, y: TransactionDetails)
  {
    && GetString(doc, "CurrencySettlement") == Wrappers.Success(Enums.CurrencyName(y.CurrencySettlement))
    && GetString(doc, "PaymentMethod") == Wrappers.Success(y.PaymentMethod)
    && GetString(doc, "TxnData1") == Wrappers.Success(y.TxnData1)
    && GetString(doc, "TxnData2") == Wrappers.Success(y.TxnData2)
    && GetString(doc, "TxnData3") == Wrappers.Success(y.TxnData3)
    && GetString(doc, "TxnType") == Wrappers.Success(Enums.TransactionTypeName(y.TxnType))
    && GetString(doc, "CurrencyInput") == Wrappers.Success(Enums.CurrencyName(y.CurrencyInput))
    && GetString(doc, "MerchantReference") == Wrappers.Success(y.MerchantReference)
  }

  /** The fields the identifier step reads; without a client address there is no `ClientIpAddress` element. */
  predicate EchoesIdentifiers(doc: Node, y: TransactionDetails)
  {
    && (y.ClientIpAddress.Some? ==> GetString(doc, "ClientIpAddress") == Wrappers.Success(y.ClientIpAddress.value))
    && (y.ClientIpAddress.None? ==> !TagExists(doc, "ClientIpAddress"))
    && GetString(doc, "TxnId") == Wrappers.Success(y.TxnId)
    && GetString(doc, "EmailAddress") == Wrappers.Success(y.EmailAddress)
    && GetString(doc, "BillingId") == Wrappers.Success(y.BillingId)
    && GetString(doc, "TxnMac") == Wrappers.Success(y.TxnMac)
    && GetString(doc, "CardNumber2") == Wrappers.Success(y.CardNumber2)
    && GetString(doc, "Cvc2ResultCode") == Wrappers.Success(CvcToken(y.Cvc2ResultCode))
  }

  /**
   * A document echoes `y` when every element `ProcessResponse` reads holds the text of the
   * matching field of `y`. Other elements may be present.
   */
  predicate Echoes(doc: Node, y: TransactionDetails)
  {
    EchoesStatus(doc, y) && EchoesCard(doc, y) && EchoesTransaction(doc, y) && EchoesIdentifiers(doc, y)
  }

  /**
   * Every element the record carries holds the text of its field, and without a client
   * address there is no `ClientIpAddress` element.
   */
  predicate EchoesTags(doc: Node, d: TransactionDetails)
  {
    && (forall t :: Carries(d, t) ==> GetString(doc, ReplyTagName(t)) == Wrappers.Success(EchoText(d, t)))
    && (d.ClientIpAddress.None? ==> !TagExists(doc, ReplyTagName(ClientIpAddress)))
  }

  /** The reply built for `d` holds the text of every field `d` carries. */
  lemma EchoResponseTags(d: TransactionDetails)
    ensures EchoesTags(EchoResponse(d), d)
  {
    forall t | Carries(d, t) ensures GetString(EchoResponse(d), ReplyTagName(t)) == Wrappers.Success(EchoText(d, t)) {
      EchoLookup(d, t);
    }
    if d.ClientIpAddress.None? {
      EchoNoAddress(d);
    }
  }

  /** One carried field of a document holding every carried field, by its literal name and text. */
  lemma TagText(doc: Node, d: TransactionDetails, t: ReplyTag, n: string, v: string)
    requires EchoesTags(doc, d)
    requires Carries(d, t) && ReplyTagName(t) == n && EchoText(d, t) == v
    ensures GetString(doc, n) == Wrappers.Success(v)
  {
  }

  /** The authorisation code and the card name and number. */
  lemma CardTags1(doc: Node, d: TransactionDetails)
    requires EchoesTags(doc, d)
    ensures GetString(doc, "AuthCode") == Wrappers.Success(d.AuthCode)
    ensures GetString(doc, "CardName") == Wrappers.Success(d.CardName)
    ensures GetString(doc, "CardNumber") == Wrappers.Success(d.CardNumber)
  {
    assert GetString(doc, "AuthCode") == Wrappers.Success(d.AuthCode) by { TagText(doc, d, AuthCode, "AuthCode", d.AuthCode); }
    assert GetString(doc, "CardName") == Wrappers.Success(d.CardName) by { TagText(doc, d, CardName, "CardName", d.CardName); }
    assert GetString(doc, "CardNumber") == Wrappers.Success(d.CardNumber) by { TagText(doc, d, CardNumber, "CardNumber", d.CardNumber); }
  }

  /** The expiry date, the transaction reference and the outcome flag. */
  lemma CardTags2(doc: Node, d: TransactionDetails)
    requires EchoesTags(doc, d)
    ensures GetString(doc, "DateExpiry") == Wrappers.Success(d.DateExpiry)
    ensures GetString(doc, "DpsTxnRef") == Wrappers.Success(d.DpsTxnRef)
    ensures GetString(doc, "Success") == Wrappers.Success(if d.Success then "1" else "0")
  {
    assert GetString(doc, "DateExpiry") == Wrappers.Success(d.DateExpiry) by { TagText(doc, d, DateExpiry, "DateExpiry", d.DateExpiry); }
    assert GetString(doc, "DpsTxnRef") == Wrappers.Success(d.DpsTxnRef) by { TagText(doc, d, DpsTxnRef, "DpsTxnRef", d.DpsTxnRef); }
    assert GetString(doc, "Success") == Wrappers.Success(if d.Success then "1" else "0") by { TagText(doc, d, Success, "Success", if d.Success then "1" else "0"); }
  }

  /** The response text, the billing token and the card holder. */
  lemma CardTags3(doc: Node, d: TransactionDetails)
    requires EchoesTags(doc, d)
    ensures GetString(doc, "ResponseText") == Wrappers.Success(d.ResponseText)
    ensures GetString(doc, "DpsBillingId") == Wrappers.Success(d.DpsBillingId)
    ensures GetString(doc, "CardHolderName") == Wrappers.Success(d.CardHolderName)
  {
    assert GetString(doc, "ResponseText") == Wrappers.Success(d.ResponseText) by { TagText(doc, d, ResponseText, "ResponseText", d.ResponseText); }
    assert GetString(doc, "DpsBillingId") == Wrappers.Success(d.DpsBillingId) by { TagText(doc, d, DpsBillingId, "DpsBillingId", d.DpsBillingId); }
    assert GetString(doc, "CardHolderName") == Wrappers.Success(d.CardHolderName) by { TagText(doc, d, CardHolderName, "CardHolderName", d.CardHolderName); }
  }

  /** A document holding every carried field meets the card step's reads. */
  lemma TagsCard(doc: Node, d: TransactionDetails)
    requires EchoesTags(doc, d)
    ensures EchoesCard(doc, d)
  {
    CardTags1(doc, d);
    CardTags2(doc, d);
    CardTags3(doc, d);
  }

  /** The settlement currency, the payment method and the first user datum. */
  lemma TransactionTags1(doc: Node, d: TransactionDetails)
    requires EchoesTags(doc, d)
    ensures GetString(doc, "CurrencySettlement") == Wrappers.Success(Enums.CurrencyName(d.CurrencySettlement))
    ensures GetString(doc, "PaymentMethod") == Wrappers.Success(d.PaymentMethod)
    ensures GetString(doc, "TxnData1") == Wrappers.Success(d.TxnData1)
  {
    assert GetString(doc, "CurrencySettlement") == Wrappers.Success(Enums.CurrencyName(d.CurrencySettlement)) by { TagText(doc, d, CurrencySettlement, "CurrencySettlement", Enums.CurrencyName(d.CurrencySettlement)); }
    assert GetString(doc, "PaymentMethod") == Wrappers.Success(d.PaymentMethod) by { TagText(doc, d, PaymentMethod, "PaymentMethod", d.PaymentMethod); }
    assert GetString(doc, "TxnData1") == Wrappers.Success(d.TxnData1) by { TagText(doc, d, TxnData1, "TxnData1", d.TxnData1); }
  }

  /** The other two user data and the transaction type. */
  lemma TransactionTags2(doc: Node, d: TransactionDetails)
    requires EchoesTags(doc, d)
    ensures GetString(doc, "TxnData2") == Wrappers.Success(d.TxnData2)
    ensures GetString(doc, "TxnData3") == Wrappers.Success(d.TxnData3)
    ensures GetString(doc, "TxnType") == Wrappers.Success(Enums.TransactionTypeName(d.TxnType))
  {
    assert GetString(doc, "TxnData2") == Wrappers.Success(d.TxnData2) by { TagText(doc, d, TxnData2, "TxnData2", d.TxnData2); }
    assert GetString(doc, "TxnData3") == Wrappers.Success(d.TxnData3) by { TagText(doc, d, TxnData3, "TxnData3", d.TxnData3); }
    assert GetString(doc, "TxnType") == Wrappers.Success(Enums.TransactionTypeName(d.TxnType)) by { TagText(doc, d, TxnType, "TxnType", Enums.TransactionTypeName(d.TxnType)); }
  }

  /** The input currency and the merchant reference. */
  lemma TransactionTags3(doc: Node, d: TransactionDetails)
    requires EchoesTags(doc, d)
    ensures GetString(doc, "CurrencyInput") == Wrappers.Success(Enums.CurrencyName(d.CurrencyInput))
    ensures GetString(doc, "MerchantReference") == Wrappers.Success(d.MerchantReference)
  {
    assert GetString(doc, "CurrencyInput") == Wrappers.Success(Enums.CurrencyName(d.CurrencyInput)) by { TagText(doc, d, CurrencyInput, "CurrencyInput", Enums.CurrencyName(d.CurrencyInput)); }
    assert GetString(doc, "MerchantReference") == Wrappers.Success(d.MerchantReference) by { TagText(doc, d, MerchantReference, "MerchantReference", d.MerchantReference); }
  }

  /** A document holding every carried field meets the transaction step's reads. */
  lemma TagsTransaction(doc: Node, d: TransactionDetails)
    requires EchoesTags(doc, d)
    ensures EchoesTransaction(doc, d)
  {
    TransactionTags1(doc, d);
    TransactionTags2(doc, d);
    TransactionTags3(doc, d);
  }

  /** The transaction identifier, the email address and the billing identifier. */
  lemma IdentifierTags1(doc: Node, d: TransactionDetails)
    requires EchoesTags(doc, d)
    ensures GetString(doc, "TxnId") == Wrappers.Success(d.TxnId)
    ensures GetString(doc, "EmailAddress") == Wrappers.Success(d.EmailAddress)
    ensures GetString(doc, "BillingId") == Wrappers.Success(d.BillingId)
  {
    assert GetString(doc, "TxnId") == Wrappers.Success(d.TxnId) by { TagText(doc, d, TxnId, "TxnId", d.TxnId); }
    assert GetString(doc, "EmailAddress") == Wrappers.Success(d.EmailAddress) by { TagText(doc, d, EmailAddress, "EmailAddress", d.EmailAddress); }
    assert GetString(doc, "BillingId") == Wrappers.Success(d.BillingId) by { TagText(doc, d, BillingId, "BillingId", d.BillingId); }
  }

  /** The MAC and the second card number. */
  lemma IdentifierTags2(doc: Node, d: TransactionDetails)
    requires EchoesTags(doc, d)
    ensures GetString(doc, "TxnMac") == Wrappers.Success(d.TxnMac)
    ensures GetString(doc, "CardNumber2") == Wrappers.Success(d.CardNumber2)
  {
    assert GetString(doc, "TxnMac") == Wrappers.Success(d.TxnMac) by { TagText(doc, d, TxnMac, "TxnMac", d.TxnMac); }
    assert GetString(doc, "CardNumber2") == Wrappers.Success(d.CardNumber2) by { TagText(doc, d, CardNumber2, "CardNumber2", d.CardNumber2); }
  }

  /** The CVC result, as its token. */
  lemma IdentifierTags3(doc: Node, d: TransactionDetails)
    requires EchoesTags(doc, d)
    ensures GetString(doc, "Cvc2ResultCode") == Wrappers.Success(CvcToken(d.Cvc2ResultCode))
  {
    TagText(doc, d, Cvc2ResultCode, "Cvc2ResultCode", CvcToken(d.Cvc2ResultCode));
  }

  /** A document holding every carried field meets the identifier step's reads. */
  lemma TagsIdentifiers(doc: Node, d: TransactionDetails)
    requires EchoesTags(doc, d)
    ensures EchoesIdentifiers(doc, d)
  {
    if d.ClientIpAddress.Some? {
      assert GetString(doc, "ClientIpAddress") == Wrappers.Success(d.ClientIpAddress.value) by { TagText(doc, d, ClientIpAddress, "ClientIpAddress", d.ClientIpAddress.value); }
    }
    IdentifierTags1(doc, d);
    IdentifierTags2(doc, d);
    IdentifierTags3(doc, d);
  }

  /** A document holding every carried field and the validity flag meets the status step's reads. */
  lemma TagsStatus(doc: Node, d: TransactionDetails)
    requires EchoesTags(doc, d)
    requires FirstAttribute(doc, ResponseRoot, "valid") == Wrappers.Success(if d.ValidTransaction then "1" else "0")
    ensures EchoesStatus(doc, d)
  {
    assert GetString(doc, "AmountSettlement") == Wrappers.Success(FormatAmount(d.AmountSettlement)) by { TagText(doc, d, AmountSettlement, "AmountSettlement", FormatAmount(d.AmountSettlement)); }
  }

  /** The reply built for `d` echoes `d`. */
  lemma EchoResponseEchoes(d: TransactionDetails)
    ensures Echoes(EchoResponse(d), d)
  {
    EchoResponseTags(d);
    EchoValid(d);
    TagsStatus(EchoResponse(d), d);
    TagsCard(EchoResponse(d), d);
    TagsTransaction(EchoResponse(d), d);
    TagsIdentifiers(EchoResponse(d), d);
  }

  /** The status step reads back the validity flag and the amount of an echoed record. */
  lemma StatusReadBack(doc: Node, x: TransactionDetails, y: TransactionDetails)
    requires EchoesStatus(doc, y)
    ensures DecodeStatus(doc, x) == Wrappers.Success(x.(ValidTransaction := y.ValidTransaction, AmountSettlement := y.AmountSettlement))
  {
    AmountRoundTrip(y.AmountSettlement);
  }

  /** The card step reads back the card and outcome fields of an echoed record. */
  lemma CardReadBack(doc: Node, x: TransactionDetails, y: TransactionDetails)
    requires EchoesCard(doc, y)
    ensures DecodeCard(doc, x) == Wrappers.Success(x.(
      AuthCode := y.AuthCode, CardName := y.CardName, CardNumber := y.CardNumber, DateExpiry := y.DateExpiry,
      DpsTxnRef := y.DpsTxnRef, Success := y.Success, ResponseText := y.ResponseText,
      DpsBillingId := y.DpsBillingId, CardHolderName := y.CardHolderName))
  {
  }

  /**
   * The transaction step reads back the transaction fields of an echoed record, provided
   * both of its currencies are variants of the currency enumeration.
   */
  lemma TransactionReadBack(doc: Node, x: TransactionDetails, y: TransactionDetails, currencies: set<string>)
    requires EchoesTransaction(doc, y)
    requires Enums.CurrencyName(y.CurrencySettlement) in currencies && Enums.CurrencyName(y.CurrencyInput) in currencies
    ensures DecodeTransaction(doc, x, currencies) == Wrappers.Success(x.(
      CurrencySettlement := y.CurrencySettlement, PaymentMethod := y.PaymentMethod,
      TxnData1 := y.TxnData1, TxnData2 := y.TxnData2, TxnData3 := y.TxnData3, TxnType := y.TxnType,
      CurrencyInput := y.CurrencyInput, MerchantReference := y.MerchantReference))
  {
  }

  /** The identifier step reads back the identifiers, the client address and the CVC result of an echoed record. */
  lemma IdentifiersReadBack(doc: Node, x: TransactionDetails, y: TransactionDetails)
    requires EchoesIdentifiers(doc, y)
    ensures DecodeIdentifiers(doc, x) == Wrappers.Success(x.(
      ClientIpAddress := y.ClientIpAddress, TxnId := y.TxnId, EmailAddress := y.EmailAddress,
      BillingId := y.BillingId, TxnMac := y.TxnMac, CardNumber2 := y.CardNumber2, Cvc2ResultCode := y.Cvc2ResultCode))
  {
  }

  /**
   * `ProcessResponse` reads back every field of a record from any reply that echoes it,
   * whose currencies are variants of the currency enumeration.
   */
  lemma ReadBack(doc: Node, y: TransactionDetails, currencies: set<string>)
    requires Echoes(doc, y)
    requires Enums.CurrencyName(y.CurrencySettlement) in currencies && Enums.CurrencyName(y.CurrencyInput) in currencies
    ensures DecodeDocument(doc, currencies) == Wrappers.Success(y)
  {
    var d0 := NewTransactionDetails;
    StatusReadBack(doc, d0, y);
    var d1 := DecodeStatus(doc, d0).value;
    CardReadBack(doc, d1, y);
    var d2 := DecodeCard(doc, d1).value;
    TransactionReadBack(doc, d2, y, currencies);
    IdentifiersReadBack(doc, DecodeTransaction(doc, d2, currencies).value, y);
  }

  /**
   * The reply built for a record is read back as that record exactly when its two currencies
   * are variants of the currency enumeration; otherwise the currency lookup throws.
   */
  lemma EchoRoundTrip(d: TransactionDetails, currencies: set<string>)
    ensures DecodeDocument(EchoResponse(d), currencies).Success? <==>
      Enums.CurrencyName(d.CurrencySettlement) in currencies && Enums.CurrencyName(d.CurrencyInput) in currencies
    ensures DecodeDocument(EchoResponse(d), currencies).Success? ==> DecodeDocument(EchoResponse(d), currencies).value == d
  {
    EchoResponseEchoes(d);
    if Enums.CurrencyName(d.CurrencySettlement) in currencies && Enums.CurrencyName(d.CurrencyInput) in currencies {
      ReadBack(EchoResponse(d), d, currencies);
    }
  }
}
