/**
 * The request side of WindCave/PxPay/PxPayClient.cs: the children of the
 * `GenerateRequest` document built by `BuildTransactionXmlRequest`, and their properties.
 */
module RequestEncoder {
  import opened Wrappers
  import opened Formatting
  import opened XmlHelper
  import opened Models
  import Enums

  /** The credentials a `PxPayClient` is constructed with (either may be null). */
  datatype Credentials = Credentials(UserId: Option<string>, Key: Option<string>)

  /** The child elements a `GenerateRequest` document can have. */
  datatype RequestTag =
    | PxPayUserId | PxPayKey | AmountInput | BillingId | CurrencyInput | EmailAddress
    | EnableAddBillCard | RecurringMode | MerchantReference | DpsBillingId
    | TxnData1 | TxnData2 | TxnData3 | TxnType | TxnId | UrlFail | UrlSuccess
    | UrlCallback | Opt | ClientType | ForcePaymentMethod | DebtRepaymentIndicator
    | InstallmentNumber | InstallmentCount

  /** The element name of each tag. */
  function TagName(t: RequestTag): string
  {
    match t
    case PxPayUserId => "PxPayUserId"
    case PxPayKey => "PxPayKey"
    case AmountInput => "AmountInput"
    case BillingId => "BillingId"
    case CurrencyInput => "CurrencyInput"
    case EmailAddress => "EmailAddress"
    case EnableAddBillCard => "EnableAddBillCard"
    case RecurringMode => "RecurringMode"
    case MerchantReference => "MerchantReference"
    case DpsBillingId => "DpsBillingId"
    case TxnData1 => "TxnData1"
    case TxnData2 => "TxnData2"
    case TxnData3 => "TxnData3"
    case TxnType => "TxnType"
    case TxnId => "TxnId"
    case UrlFail => "UrlFail"
    case UrlSuccess => "UrlSuccess"
    case UrlCallback => "UrlCallback"
    case Opt => "Opt"
    case ClientType => "ClientType"
    case ForcePaymentMethod => "ForcePaymentMethod"
    case DebtRepaymentIndicator => "DebtRepaymentIndicator"
    case InstallmentNumber => "InstallmentNumber"
    case InstallmentCount => "InstallmentCount"
  }

  /** The length and the last character of a tag's element name. */
  function NameKey(t: RequestTag): (int, char)
  {
    var name := TagName(t);
    (|name|, name[|name| - 1])
  }

  /** The tag whose name has the given length and last character, if any: no two names share both. */
  function TagOfKey(length: int, last: char): Option<RequestTag>
  {
    match length
    case 3 => if last == 't' then Some(Opt) else None
    case 5 => if last == 'd' then Some(TxnId) else None
    case 7 => if last == 'e' then Some(TxnType) else if last == 'l' then Some(UrlFail) else None
    case 8 => if last == 'y' then Some(PxPayKey) else if last == '1' then Some(TxnData1) else if last == '2' then Some(TxnData2) else if last == '3' then Some(TxnData3) else None
    case 9 => if last == 'd' then Some(BillingId) else None
    case 10 => if last == 's' then Some(UrlSuccess) else if last == 'e' then Some(ClientType) else None
    case 11 => if last == 'd' then Some(PxPayUserId) else if last == 't' then Some(AmountInput) else if last == 'k' then Some(UrlCallback) else None
    case 12 => if last == 's' then Some(EmailAddress) else if last == 'd' then Some(DpsBillingId) else None
    case 13 => if last == 't' then Some(CurrencyInput) else if last == 'e' then Some(RecurringMode) else None
    case 16 => if last == 't' then Some(InstallmentCount) else None
    case 17 => if last == 'd' then Some(EnableAddBillCard) else if last == 'e' then Some(MerchantReference) else if last == 'r' then Some(InstallmentNumber) else None
    case 18 => if last == 'd' then Some(ForcePaymentMethod) else None
    case 22 => if last == 'r' then Some(DebtRepaymentIndicator) else None
    case _ => None
  }

  /** Each name's key leads back to its tag (in two halves, to keep each proof small). */
  lemma TagOfNameKey(t: RequestTag)
    ensures TagOfKey(NameKey(t).0, NameKey(t).1) == Some(t)
  {
    if Rank(t) < 12 {
      TagOfNameKeyEarly(t);
    } else {
      TagOfNameKeyLate(t);
    }
  }

  lemma TagOfNameKeyEarly(t: RequestTag)
    requires Rank(t) < 12
    ensures TagOfKey(NameKey(t).0, NameKey(t).1) == Some(t)
  {
  }

  lemma TagOfNameKeyLate(t: RequestTag)
    requires Rank(t) >= 12
    ensures TagOfKey(NameKey(t).0, NameKey(t).1) == Some(t)
  {
  }

  /** Element names identify tags: no two tags share a name. */
  lemma TagNameInjective(t1: RequestTag, t2: RequestTag)
    requires TagName(t1) == TagName(t2)
    ensures t1 == t2
  {
    TagOfNameKey(t1);
    TagOfNameKey(t2);
  }

  /**
   * The tag at position `i` of the order in which `BuildTransactionXmlRequest` considers
   * the fields (positions past the end repeat the last tag).
   */
  function TagAt(i: int): RequestTag
  {
    if i <= 0 then PxPayUserId
    else if i == 1 then PxPayKey
    else if i == 2 then AmountInput
    else if i == 3 then BillingId
    else if i == 4 then CurrencyInput
    else if i == 5 then EmailAddress
    else if i == 6 then EnableAddBillCard
    else if i == 7 then RecurringMode
    else if i == 8 then MerchantReference
    else if i == 9 then DpsBillingId
    else if i == 10 then TxnData1
    else if i == 11 then TxnData2
    else if i == 12 then TxnData3
    else if i == 13 then TxnType
    else if i == 14 then TxnId
    else if i == 15 then UrlFail
    else if i == 16 then UrlSuccess
    else if i == 17 then UrlCallback
    else if i == 18 then Opt
    else if i == 19 then ClientType
    else if i == 20 then ForcePaymentMethod
    else if i == 21 then DebtRepaymentIndicator
    else if i == 22 then InstallmentNumber
    else InstallmentCount
  }

  /** The order in which `BuildTransactionXmlRequest` considers the fields. */
  function SourceOrder(): seq<RequestTag> { seq(24, TagAt) }

  /** The tags emitted whatever the request holds. */
  predicate Required(t: RequestTag)
  {
    t in {PxPayUserId, PxPayKey, AmountInput, CurrencyInput, TxnType, TxnId, UrlFail, UrlSuccess}
  }

  /**
   * Whether the request supplies tag `t`: required tags always; optional strings when
   * not null or empty; the two flags when true; nullable values when they have a value.
   */
  predicate Present(req: CreateTransactionRequest, t: RequestTag)
  {
    match t
    case BillingId => HasText(req.BillingId)
    case EmailAddress => HasText(req.EmailAddress)
    case EnableAddBillCard => req.EnableAddBillCard
    case RecurringMode => req.RecurringMode.Some?
    case MerchantReference => HasText(req.MerchantReference)
    case DpsBillingId => HasText(req.DpsBillingId)
    case TxnData1 => HasText(req.TxnData1)
    case TxnData2 => HasText(req.TxnData2)
    case TxnData3 => HasText(req.TxnData3)
    case UrlCallback => HasText(req.UrlCallback)
    case Opt => HasText(req.Opt)
    case ClientType => req.ClientType.Some?
    case ForcePaymentMethod => req.ForcePaymentMethod.Some?
    case DebtRepaymentIndicator => req.DebtRepaymentIndicator
    case InstallmentNumber => req.InstallmentNumber.Some?
    case InstallmentCount => req.InstallmentCount.Some?
    case _ => Required(t)
  }

  /** The text of a string property; a null string makes an empty element. */
  function TextOf(s: Option<string>): string
  {
    s.GetOr("")
  }

  /** The lower-cased recurring mode, or "" when none is set. */
  function ModeText(m: Option<Enums.RecurringMode>): string
  {
    if m.Some? then Enums.RecurringModeToken(m.value) else ""
  }

  /** The client type's name, or "" when none is set. */
  function ClientTypeText(t: Option<Enums.ClientType>): string
  {
    if t.Some? then Enums.ClientTypeName(t.value) else ""
  }

  /** The forced payment method's name, or "" when none is set. */
  function ForcePaymentMethodText(p: Option<Enums.ForcePaymentMethod>): string
  {
    if p.Some? then Enums.ForcePaymentMethodName(p.value) else ""
  }

  /** The decimal text of an installment number or count, or "" when none is set. */
  function CountText(n: Option<Int32>): string
  {
    if n.Some? then IntToString(n.value) else ""
  }

  /** The text tag `t` carries when it is emitted. */
  function Value(c: Credentials, req: CreateTransactionRequest, tt: Enums.TransactionType, t: RequestTag): string
  {
    match t
    case PxPayUserId => TextOf(c.UserId)
    case PxPayKey => TextOf(c.Key)
    case AmountInput => FormatAmount(req.Amount)
    case BillingId => TextOf(req.BillingId)
    case CurrencyInput => Enums.CurrencyName(req.CurrencyInput)
    case EmailAddress => TextOf(req.EmailAddress)
    case EnableAddBillCard => "1"
    case RecurringMode => ModeText(req.RecurringMode)
    case MerchantReference => TextOf(req.MerchantReference)
    case DpsBillingId => TextOf(req.DpsBillingId)
    case TxnData1 => TextOf(req.TxnData1)
    case TxnData2 => TextOf(req.TxnData2)
    case TxnData3 => TextOf(req.TxnData3)
    case TxnType => Enums.TransactionTypeName(tt)
    case TxnId => TextOf(req.TxnId)
    case UrlFail => TextOf(req.UrlFail)
    case UrlSuccess => TextOf(req.UrlSuccess)
    case UrlCallback => TextOf(req.UrlCallback)
    case Opt => TextOf(req.Opt)
    case ClientType => ClientTypeText(req.ClientType)
    case ForcePaymentMethod => ForcePaymentMethodText(req.ForcePaymentMethod)
    case DebtRepaymentIndicator => "1"
    case InstallmentNumber => CountText(req.InstallmentNumber)
    case InstallmentCount => CountText(req.InstallmentCount)
  }

  /** One child element of the request document. */
  datatype Field = Field(tag: RequestTag, value: string)

  /** One field when `supplied` holds, none otherwise: the conditional `Add` of the builder. */
  function OptionalField(supplied: bool, t: RequestTag, value: string): (r: seq<Field>)
  {
    if supplied then [Field(t, value)] else []
  }

  /** The field for tag `t`, or nothing when the request does not supply it. */
  function Emit(c: Credentials, req: CreateTransactionRequest, tt: Enums.TransactionType, t: RequestTag): seq<Field>
  {
    OptionalField(Present(req, t), t, Value(c, req, tt, t))
  }

  /** `Emit` for one request, as a function of the tag. */
  function RequestEmit(c: Credentials, req: CreateTransactionRequest, tt: Enums.TransactionType): RequestTag -> seq<Field>
  {
    t => Emit(c, req, tt, t)
  }

  /** An emitter gives each tag at most one field, and that field carries the tag. */
  predicate WellTagged(emit: RequestTag -> seq<Field>)
  {
    forall t :: |emit(t)| <= 1 && (|emit(t)| == 1 ==> emit(t)[0].tag == t)
  }

  /** The fields `emit` gives for the tags of `order`, in that order. */
  function FieldsFor(order: seq<RequestTag>, emit: RequestTag -> seq<Field>): seq<Field>
  {
    if order == [] then [] else emit(order[0]) + FieldsFor(order[1..], emit)
  }

  /** The children of `GenerateRequest`. */
  function RequestFields(c: Credentials, req: CreateTransactionRequest, tt: Enums.TransactionType): seq<Field>
  {
    FieldsFor(SourceOrder(), RequestEmit(c, req, tt))
  }

  /** The (name, text) pairs of the fields, for building the document. */
  function Pairs(fs: seq<Field>): (r: seq<(string, string)>)
    ensures |r| == |fs|
    ensures forall i :: 0 <= i < |fs| ==> r[i] == (TagName(fs[i].tag), fs[i].value)
  {
    if fs == [] then [] else [(TagName(fs[0].tag), fs[0].value)] + Pairs(fs[1..])
  }

  /** `new XElement(root, fields)`. */
  function Document(root: string, fs: seq<Field>): Node
  {
    Element(root, map[], Leaves(Pairs(fs)))
  }

  /** The position of a tag in `SourceOrder`. */
  function Rank(t: RequestTag): (r: nat)
    ensures r < |SourceOrder()| && TagAt(r) == t
  {
    match t
    case PxPayUserId => 0
    case PxPayKey => 1
    case AmountInput => 2
    case BillingId => 3
    case CurrencyInput => 4
    case EmailAddress => 5
    case EnableAddBillCard => 6
    case RecurringMode => 7
    case MerchantReference => 8
    case DpsBillingId => 9
    case TxnData1 => 10
    case TxnData2 => 11
    case TxnData3 => 12
    case TxnType => 13
    case TxnId => 14
    case UrlFail => 15
    case UrlSuccess => 16
    case UrlCallback => 17
    case Opt => 18
    case ClientType => 19
    case ForcePaymentMethod => 20
    case DebtRepaymentIndicator => 21
    case InstallmentNumber => 22
    case InstallmentCount => 23
  }

  /** The tags of `fs` occur in increasing `SourceOrder` position: a subsequence with no repeats. */
  predicate InSourceOrder(fs: seq<Field>)
  {
    forall i, j :: 0 <= i < j < |fs| ==> Rank(fs[i].tag) < Rank(fs[j].tag)
  }

  predicate RanksIncrease(order: seq<RequestTag>)
  {
    forall i, j :: 0 <= i < j < |order| ==> Rank(order[i]) < Rank(order[j])
  }

  // ---------------------------------------------------------------------------
  // Properties of FieldsFor over any order and any emitter.

  /** Every field comes from `order` and is the one field `emit` gives for its tag. */
  lemma {:induction false} FieldsForMembers(order: seq<RequestTag>, emit: RequestTag -> seq<Field>)
    requires WellTagged(emit)
    ensures forall i :: 0 <= i < |FieldsFor(order, emit)| ==>
      FieldsFor(order, emit)[i].tag in order && emit(FieldsFor(order, emit)[i].tag) == [FieldsFor(order, emit)[i]]
  {
    if order != [] {
      FieldsForMembers(order[1..], emit);
      var e: seq<Field> := emit(order[0]);
      var rest: seq<Field> := FieldsFor(order[1..], emit);
      forall i | 0 <= i < |e + rest|
        ensures (e + rest)[i].tag in order && emit((e + rest)[i].tag) == [(e + rest)[i]]
      {
        if i < |e| {
          assert e == [e[0]];
        } else {
          assert (e + rest)[i] == rest[i - |e|];
          assert rest[i - |e|].tag in order[1..];
        }
      }
    }
  }

  /** The field `emit` gives for a tag of `order` is among the result. */
  lemma {:induction false} FieldsForContains(order: seq<RequestTag>, emit: RequestTag -> seq<Field>, t: RequestTag)
    requires t in order && emit(t) != []
    ensures emit(t)[0] in FieldsFor(order, emit)
  {
    var e: seq<Field> := emit(order[0]);
    var rest: seq<Field> := FieldsFor(order[1..], emit);
    assert FieldsFor(order, emit) == e + rest;
    if order[0] == t {
      assert (e + rest)[0] == e[0];
    } else {
      assert t in order[1..];
      FieldsForContains(order[1..], emit, t);
      var k :| 0 <= k < |rest| && rest[k] == emit(t)[0];
      assert (e + rest)[|e| + k] == rest[k];
    }
  }

  /** The tail of an order of increasing position increases too, and lies above its head. */
  lemma RanksIncreaseTail(order: seq<RequestTag>)
    requires order != [] && RanksIncrease(order)
    ensures RanksIncrease(order[1..])
    ensures forall i :: 0 <= i < |order[1..]| ==> Rank(order[0]) < Rank(order[1..][i])
  {
    forall i, j | 0 <= i < j < |order[1..]| ensures Rank(order[1..][i]) < Rank(order[1..][j]) {
      assert order[1..][i] == order[i + 1] && order[1..][j] == order[j + 1];
    }
    forall i | 0 <= i < |order[1..]| ensures Rank(order[0]) < Rank(order[1..][i]) {
      assert order[1..][i] == order[i + 1];
    }
  }

  /** At most one field of position `r` in front of ordered fields above `r` keeps them ordered. */
  lemma InSourceOrderCons(e: seq<Field>, rest: seq<Field>, r: int, lo: int)
    requires |e| <= 1 && (|e| == 1 ==> Rank(e[0].tag) == r) && lo < r
    requires InSourceOrder(rest) && forall j :: 0 <= j < |rest| ==> r < Rank(rest[j].tag)
    ensures InSourceOrder(e + rest)
    ensures forall j :: 0 <= j < |e + rest| ==> lo < Rank((e + rest)[j].tag)
  {
    forall i, j | 0 <= i < j < |e + rest| ensures Rank((e + rest)[i].tag) < Rank((e + rest)[j].tag) {
      assert (e + rest)[j] == rest[j - |e|];
      if i >= |e| {
        assert (e + rest)[i] == rest[i - |e|];
      }
    }
    forall j | 0 <= j < |e + rest| ensures lo < Rank((e + rest)[j].tag) {
      if j >= |e| {
        assert (e + rest)[j] == rest[j - |e|];
      }
    }
  }

  /** A tag of `order` for which `emit` gives a field is carried by the result. */
  lemma FieldsForHasTag(order: seq<RequestTag>, emit: RequestTag -> seq<Field>, t: RequestTag, fs: seq<Field>)
    requires WellTagged(emit) && t in order && |emit(t)| == 1
    requires fs == FieldsFor(order, emit)
    ensures exists k :: 0 <= k < |fs| && fs[k].tag == t
  {
    FieldsForContains(order, emit, t);
    var k :| 0 <= k < |fs| && fs[k] == emit(t)[0];
    assert fs[k].tag == t;
  }

  /**
   * Emitting along an order of increasing position keeps that order, and every field
   * stays above any position bound that the order respects.
   */
  lemma {:induction false} FieldsForOrdered(order: seq<RequestTag>, lo: int, emit: RequestTag -> seq<Field>)
    requires WellTagged(emit)
    requires RanksIncrease(order)
    requires forall i :: 0 <= i < |order| ==> lo < Rank(order[i])
    ensures InSourceOrder(FieldsFor(order, emit))
    ensures forall j :: 0 <= j < |FieldsFor(order, emit)| ==> lo < Rank(FieldsFor(order, emit)[j].tag)
  {
    if order != [] {
      RanksIncreaseTail(order);
      FieldsForOrdered(order[1..], Rank(order[0]), emit);
      InSourceOrderCons(emit(order[0]), FieldsFor(order[1..], emit), Rank(order[0]), lo);
    }
  }

  /** Considering one more tag at the end adds that tag's field, if any, at the end. */
  lemma {:induction false} FieldsForSnoc(order: seq<RequestTag>, t: RequestTag, emit: RequestTag -> seq<Field>)
    ensures FieldsFor(order + [t], emit) == FieldsFor(order, emit) + emit(t)
  {
    if order == [] {
      assert [t][1..] == [];
      assert order + [t] == [t];
    } else {
      assert (order + [t])[1..] == order[1..] + [t];
      FieldsForSnoc(order[1..], t, emit);
    }
  }

  /**
   * Two emitters that emit for the same tags and agree everywhere except at `TxnType`
   * give fields that differ at most in the `TxnType` field.
   */
  lemma {:induction false} FieldsForAgree(order: seq<RequestTag>, e1: RequestTag -> seq<Field>, e2: RequestTag -> seq<Field>)
    requires WellTagged(e1) && WellTagged(e2)
    requires forall t :: |e1(t)| == |e2(t)|
    requires forall t :: t != TxnType ==> e1(t) == e2(t)
    ensures |FieldsFor(order, e1)| == |FieldsFor(order, e2)|
    ensures forall k :: 0 <= k < |FieldsFor(order, e1)| ==>
      FieldsFor(order, e1)[k].tag == FieldsFor(order, e2)[k].tag &&
      (FieldsFor(order, e1)[k].tag != TxnType ==> FieldsFor(order, e1)[k] == FieldsFor(order, e2)[k])
  {
    if order != [] {
      FieldsForAgree(order[1..], e1, e2);
      var h1: seq<Field>, h2: seq<Field> := e1(order[0]), e2(order[0]);
      var r1: seq<Field>, r2: seq<Field> := FieldsFor(order[1..], e1), FieldsFor(order[1..], e2);
      assert |h1| == |h2|;
      forall k | 0 <= k < |h1 + r1|
        ensures (h1 + r1)[k].tag == (h2 + r2)[k].tag
        ensures (h1 + r1)[k].tag != TxnType ==> (h1 + r1)[k] == (h2 + r2)[k]
      {
        if k < |h1| {
          assert (h1 + r1)[k] == h1[0] && (h2 + r2)[k] == h2[0];
        } else {
          assert (h1 + r1)[k] == r1[k - |h1|] && (h2 + r2)[k] == r2[k - |h1|];
        }
      }
    }
  }

  /** Unfolding `FieldsFor` three times at tags that each give one field. */
  lemma FieldsForStart(order: seq<RequestTag>, emit: RequestTag -> seq<Field>)
    requires |order| >= 3 && |emit(order[0])| == 1 && |emit(order[1])| == 1 && |emit(order[2])| == 1
    ensures |FieldsFor(order, emit)| >= 3
    ensures FieldsFor(order, emit)[..3] == [emit(order[0])[0], emit(order[1])[0], emit(order[2])[0]]
  {
    var e0, e1, e2 := emit(order[0]), emit(order[1]), emit(order[2]);
    assert order[1..][0] == order[1] && order[1..][1..][0] == order[2];
    var rest := FieldsFor(order[1..][1..][1..], emit);
    assert FieldsFor(order[1..][1..], emit) == e2 + rest;
    assert FieldsFor(order[1..], emit) == e1 + (e2 + rest);
    assert FieldsFor(order, emit) == e0 + (e1 + (e2 + rest));
    assert e0 + (e1 + (e2 + rest)) == [e0[0], e1[0], e2[0]] + rest;
  }

  // ---------------------------------------------------------------------------
  // Properties of the GenerateRequest children.

  /** Position `i` of the source order has rank `i`. */
  lemma RankTagAt(i: int)
    requires 0 <= i < 24
    ensures Rank(TagAt(i)) == i
  {
  }

  /** Every tag has a place in the source order. */
  lemma InSourceOrderList(t: RequestTag)
    ensures t in SourceOrder()
  {
    assert SourceOrder()[Rank(t)] == t;
  }

  /** The request's emitter gives one field exactly for the tags it supplies. */
  lemma RequestEmitWellTagged(c: Credentials, req: CreateTransactionRequest, tt: Enums.TransactionType)
    ensures WellTagged(RequestEmit(c, req, tt))
    ensures forall t :: |RequestEmit(c, req, tt)(t)| == 1 <==> Present(req, t)
  {
  }

  /** The one field `Emit` gives holds the tag's value. */
  lemma EmitContents(c: Credentials, req: CreateTransactionRequest, tt: Enums.TransactionType, t: RequestTag, f: Field)
    requires Emit(c, req, tt, t) == [f]
    ensures Present(req, t) && f == Field(t, Value(c, req, tt, t))
  {
  }

  /** The children begin with the credentials and the amount, in that order. */
  lemma RequestFieldsStart(c: Credentials, req: CreateTransactionRequest, tt: Enums.TransactionType)
    ensures |RequestFields(c, req, tt)| >= 3
    ensures RequestFields(c, req, tt)[0] == Field(PxPayUserId, TextOf(c.UserId))
    ensures RequestFields(c, req, tt)[1] == Field(PxPayKey, TextOf(c.Key))
    ensures RequestFields(c, req, tt)[2] == Field(AmountInput, FormatAmount(req.Amount))
  {
    var o, emit := SourceOrder(), RequestEmit(c, req, tt);
    assert o[0] == PxPayUserId && o[1] == PxPayKey && o[2] == AmountInput;
    FieldsForStart(o, emit);
    assert RequestFields(c, req, tt)[..3][2] == RequestFields(c, req, tt)[2];
  }

  /** A tag the request supplies appears among the children. */
  lemma RequestFieldsHas(c: Credentials, req: CreateTransactionRequest, tt: Enums.TransactionType, t: RequestTag)
    requires Present(req, t)
    ensures exists k :: 0 <= k < |RequestFields(c, req, tt)| && RequestFields(c, req, tt)[k].tag == t
  {
    RequestEmitWellTagged(c, req, tt);
    InSourceOrderList(t);
    FieldsForHasTag(SourceOrder(), RequestEmit(c, req, tt), t, RequestFields(c, req, tt));
  }

  /** A tag appears among the children exactly when the request supplies it. */
  lemma RequestFieldsPresence(c: Credentials, req: CreateTransactionRequest, tt: Enums.TransactionType, t: RequestTag)
    ensures (exists k :: 0 <= k < |RequestFields(c, req, tt)| && RequestFields(c, req, tt)[k].tag == t) <==> Present(req, t)
  {
    if Present(req, t) {
      RequestFieldsHas(c, req, tt, t);
    } else {
      RequestFieldsValues(c, req, tt);
    }
  }

  /** Every child is supplied by the request and holds its tag's value. */
  lemma RequestFieldsValues(c: Credentials, req: CreateTransactionRequest, tt: Enums.TransactionType)
    ensures forall k :: 0 <= k < |RequestFields(c, req, tt)| ==>
      Present(req, RequestFields(c, req, tt)[k].tag) && RequestFields(c, req, tt)[k].value == Value(c, req, tt, RequestFields(c, req, tt)[k].tag)
  {
    var fs := RequestFields(c, req, tt);
    RequestEmitWellTagged(c, req, tt);
    FieldsForMembers(SourceOrder(), RequestEmit(c, req, tt));
    forall k | 0 <= k < |fs| ensures Present(req, fs[k].tag) && fs[k].value == Value(c, req, tt, fs[k].tag) {
      EmitContents(c, req, tt, fs[k].tag, fs[k]);
    }
  }

  /** The required tags appear, with their values, whatever the request holds. */
  lemma RequiredAlwaysEmitted(c: Credentials, req: CreateTransactionRequest, tt: Enums.TransactionType, t: RequestTag)
    requires Required(t)
    ensures Field(t, Value(c, req, tt, t)) in RequestFields(c, req, tt)
  {
    InSourceOrderList(t);
    FieldsForContains(SourceOrder(), RequestEmit(c, req, tt), t);
  }

  /** The children follow the source order and no tag occurs twice. */
  lemma RequestFieldsOrdered(c: Credentials, req: CreateTransactionRequest, tt: Enums.TransactionType)
    ensures InSourceOrder(RequestFields(c, req, tt))
    ensures forall i, j :: 0 <= i < j < |RequestFields(c, req, tt)| ==> RequestFields(c, req, tt)[i].tag != RequestFields(c, req, tt)[j].tag
  {
    assert RanksIncrease(SourceOrder()) by {
      forall i, j | 0 <= i < j < |SourceOrder()| ensures Rank(SourceOrder()[i]) < Rank(SourceOrder()[j]) {
        RankTagAt(i);
        RankTagAt(j);
      }
    }
    RequestEmitWellTagged(c, req, tt);
    FieldsForOrdered(SourceOrder(), -1, RequestEmit(c, req, tt));
  }

  /** Emitting for a purchase and for an authorisation differ only at `TxnType`. */
  lemma EmitPurchaseAuth(c: Credentials, req: CreateTransactionRequest, t: RequestTag)
    ensures |Emit(c, req, Enums.Purchase, t)| == |Emit(c, req, Enums.Auth, t)|
    ensures t != TxnType ==> Emit(c, req, Enums.Purchase, t) == Emit(c, req, Enums.Auth, t)
  {
  }

  /** The `TxnType` field names the transaction type. */
  lemma EmitTxnType(c: Credentials, req: CreateTransactionRequest, tt: Enums.TransactionType)
    ensures Emit(c, req, tt, TxnType) == [Field(TxnType, Enums.TransactionTypeName(tt))]
  {
  }

  /** A purchase and an authorisation of the same request carry the same fields apart from the `TxnType` text. */
  lemma PurchaseAuthAgree(c: Credentials, req: CreateTransactionRequest)
    ensures |RequestFields(c, req, Enums.Purchase)| == |RequestFields(c, req, Enums.Auth)|
    ensures forall k :: 0 <= k < |RequestFields(c, req, Enums.Purchase)| ==>
      RequestFields(c, req, Enums.Purchase)[k].tag == RequestFields(c, req, Enums.Auth)[k].tag &&
      (RequestFields(c, req, Enums.Purchase)[k].tag != TxnType ==> RequestFields(c, req, Enums.Purchase)[k] == RequestFields(c, req, Enums.Auth)[k])
  {
    var ep, ea := RequestEmit(c, req, Enums.Purchase), RequestEmit(c, req, Enums.Auth);
    RequestEmitWellTagged(c, req, Enums.Purchase);
    RequestEmitWellTagged(c, req, Enums.Auth);
    forall t ensures |ep(t)| == |ea(t)| && (t != TxnType ==> ep(t) == ea(t)) {
      EmitPurchaseAuth(c, req, t);
    }
    FieldsForAgree(SourceOrder(), ep, ea);
  }

  /** The `TxnType` field of a request's document names the transaction type. */
  lemma TxnTypeField(c: Credentials, req: CreateTransactionRequest, tt: Enums.TransactionType)
    ensures forall k :: 0 <= k < |RequestFields(c, req, tt)| && RequestFields(c, req, tt)[k].tag == TxnType ==>
      RequestFields(c, req, tt)[k].value == Enums.TransactionTypeName(tt)
  {
    RequestEmitWellTagged(c, req, tt);
    FieldsForMembers(SourceOrder(), RequestEmit(c, req, tt));
    EmitTxnType(c, req, tt);
  }

  /** A purchase and an authorisation of the same request differ only in the `TxnType` text. */
  lemma PurchaseAuthDiffer(c: Credentials, req: CreateTransactionRequest)
    ensures |RequestFields(c, req, Enums.Purchase)| == |RequestFields(c, req, Enums.Auth)|
    ensures forall k :: 0 <= k < |RequestFields(c, req, Enums.Purchase)| ==>
      var p, a := RequestFields(c, req, Enums.Purchase)[k], RequestFields(c, req, Enums.Auth)[k];
      p.tag == a.tag &&
      (p.tag != TxnType ==> p.value == a.value) &&
      (p.tag == TxnType ==> p.value == "Purchase" && a.value == "Auth")
  {
    PurchaseAuthAgree(c, req);
    TxnTypeField(c, req, Enums.Purchase);
    TxnTypeField(c, req, Enums.Auth);
  }

  const GenerateRequestRoot := "GenerateRequest"

  /**
   * The document `BuildTransactionXmlRequest` builds: a `GenerateRequest` root that
   * encodes the request tag by tag.
   */
  function GenerateRequest(c: Credentials, req: CreateTransactionRequest, tt: Enums.TransactionType): (doc: Node)
    ensures doc.Element? && doc.name == GenerateRequestRoot
    ensures Encodes(doc, c, req, tt)
  {
    var doc := Document(GenerateRequestRoot, RequestFields(c, req, tt));
    assert Encodes(doc, c, req, tt) by {
      forall t ensures EncodesTag(doc, c, req, tt, t) {
        RequestDocumentLookup(c, req, tt, t);
      }
    }
    doc
  }

  lemma DistinctTagsDistinctNames(fs: seq<Field>)
    requires forall i, j :: 0 <= i < j < |fs| ==> fs[i].tag != fs[j].tag
    ensures DistinctNames(Pairs(fs))
  {
    forall i, j | 0 <= i < j < |fs| ensures TagName(fs[i].tag) != TagName(fs[j].tag) {
      if TagName(fs[i].tag) == TagName(fs[j].tag) {
        TagNameInjective(fs[i].tag, fs[j].tag);
      }
    }
  }

  /** No tag is named like the document's root. */
  lemma TagNameNotRoot(t: RequestTag)
    ensures TagName(t) != GenerateRequestRoot
  {
  }

  /** In a document of fields with distinct tags, each field reads back as its value. */
  lemma DocumentFieldLookup(fs: seq<Field>, k: nat)
    requires forall i, j :: 0 <= i < j < |fs| ==> fs[i].tag != fs[j].tag
    requires k < |fs|
    ensures GetString(Document(GenerateRequestRoot, fs), TagName(fs[k].tag)) == Success(fs[k].value)
  {
    DistinctTagsDistinctNames(fs);
    TagNameNotRoot(fs[k].tag);
    FlatDocumentLookup(GenerateRequestRoot, map[], Pairs(fs), k);
  }

  /** A tag that no field carries is absent from the document. */
  lemma DocumentFieldAbsent(fs: seq<Field>, t: RequestTag)
    requires forall i, j :: 0 <= i < j < |fs| ==> fs[i].tag != fs[j].tag
    requires forall k :: 0 <= k < |fs| ==> fs[k].tag != t
    ensures !TagExists(Document(GenerateRequestRoot, fs), TagName(t))
  {
    var pairs := Pairs(fs);
    DistinctTagsDistinctNames(fs);
    TagNameNotRoot(t);
    forall k | 0 <= k < |pairs| ensures pairs[k].0 != TagName(t) {
      if pairs[k].0 == TagName(t) {
        TagNameInjective(fs[k].tag, t);
      }
    }
    FlatDocumentAbsent(GenerateRequestRoot, map[], pairs, TagName(t));
  }

  /**
   * Reading the document back by tag name: a tag the request supplies gives its value,
   * any other tag is absent.
   */
  lemma RequestDocumentLookup(c: Credentials, req: CreateTransactionRequest, tt: Enums.TransactionType, t: RequestTag)
    ensures Present(req, t) ==> GetString(Document(GenerateRequestRoot, RequestFields(c, req, tt)), TagName(t)) == Success(Value(c, req, tt, t))
    ensures !Present(req, t) ==> !TagExists(Document(GenerateRequestRoot, RequestFields(c, req, tt)), TagName(t))
  {
    var fs := RequestFields(c, req, tt);
    RequestFieldsOrdered(c, req, tt);
    RequestFieldsPresence(c, req, tt, t);
    if Present(req, t) {
      var k :| 0 <= k < |fs| && fs[k].tag == t;
      assert fs[k].value == Value(c, req, tt, t) by {
        RequestFieldsValues(c, req, tt);
      }
      DocumentFieldLookup(fs, k);
    } else {
      DocumentFieldAbsent(fs, t);
    }
  }

  /**
   * `doc` carries the request field by field: a tag the request supplies reads back as
   * its value, any other tag is absent.
   */
  predicate EncodesTag(doc: Node, c: Credentials, req: CreateTransactionRequest, tt: Enums.TransactionType, t: RequestTag)
  {
    (Present(req, t) ==> GetString(doc, TagName(t)) == Success(Value(c, req, tt, t))) &&
    (!Present(req, t) ==> !TagExists(doc, TagName(t)))
  }

  predicate Encodes(doc: Node, c: Credentials, req: CreateTransactionRequest, tt: Enums.TransactionType)
  {
    forall t :: EncodesTag(doc, c, req, tt, t)
  }

  /** A flag is sent as "1" when set and not sent at all otherwise; "0" never appears. */
  lemma FlagsEncoding(doc: Node, c: Credentials, req: CreateTransactionRequest, tt: Enums.TransactionType)
    requires Encodes(doc, c, req, tt)
    ensures req.EnableAddBillCard ==> GetString(doc, "EnableAddBillCard") == Success("1")
    ensures !req.EnableAddBillCard ==> !TagExists(doc, "EnableAddBillCard")
    ensures req.DebtRepaymentIndicator ==> GetString(doc, "DebtRepaymentIndicator") == Success("1")
    ensures !req.DebtRepaymentIndicator ==> !TagExists(doc, "DebtRepaymentIndicator")
  {
    assert EncodesTag(doc, c, req, tt, EnableAddBillCard);
    assert EncodesTag(doc, c, req, tt, DebtRepaymentIndicator);
  }

  /** The transaction type and the currency are sent by name. */
  lemma EnumEncoding(doc: Node, c: Credentials, req: CreateTransactionRequest, tt: Enums.TransactionType)
    requires Encodes(doc, c, req, tt)
    ensures GetString(doc, "TxnType") == Success(Enums.TransactionTypeName(tt))
    ensures GetString(doc, "CurrencyInput") == Success(Enums.CurrencyName(req.CurrencyInput))
  {
    assert EncodesTag(doc, c, req, tt, TxnType);
    assert EncodesTag(doc, c, req, tt, CurrencyInput);
  }

  /** A recurring mode that is set is sent in lower case; an unset one is not sent. */
  lemma RecurringModeEncoding(doc: Node, c: Credentials, req: CreateTransactionRequest, tt: Enums.TransactionType)
    requires Encodes(doc, c, req, tt)
    ensures req.RecurringMode.Some? ==>
      GetString(doc, "RecurringMode") == Success(Enums.ToLower(Enums.RecurringModeName(req.RecurringMode.value)))
    ensures req.RecurringMode.None? ==> !TagExists(doc, "RecurringMode")
  {
    assert EncodesTag(doc, c, req, tt, RecurringMode);
  }

  /** A client type or forced payment method that is set is sent by name; an unset one is not sent. */
  lemma ClientOptionsEncoding(doc: Node, c: Credentials, req: CreateTransactionRequest, tt: Enums.TransactionType)
    requires Encodes(doc, c, req, tt)
    ensures req.ClientType.Some? ==>
      GetString(doc, "ClientType") == Success(Enums.ClientTypeName(req.ClientType.value))
    ensures req.ClientType.None? ==> !TagExists(doc, "ClientType")
    ensures req.ForcePaymentMethod.Some? ==>
      GetString(doc, "ForcePaymentMethod") == Success(Enums.ForcePaymentMethodName(req.ForcePaymentMethod.value))
    ensures req.ForcePaymentMethod.None? ==> !TagExists(doc, "ForcePaymentMethod")
  {
    assert EncodesTag(doc, c, req, tt, ClientType);
    assert EncodesTag(doc, c, req, tt, ForcePaymentMethod);
  }

  /**
   * The amount of a valid request is sent as at most nine characters with a single '.'
   * followed by two digits, and the gateway's reading of it gives back the cents.
   */
  lemma AmountEncoding(doc: Node, c: Credentials, req: CreateTransactionRequest, tt: Enums.TransactionType)
    requires Encodes(doc, c, req, tt) && ValidRequest(req)
    ensures GetString(doc, "AmountInput") == Success(FormatAmount(req.Amount))
    ensures |FormatAmount(req.Amount)| <= 9
    ensures ParseAmount(FormatAmount(req.Amount)) == Success(req.Amount)
  {
    assert EncodesTag(doc, c, req, tt, AmountInput);
    AmountTextLength(req.Amount);
    AmountRoundTrip(req.Amount);
  }

  /** Requests with different transaction ids give documents with different `TxnId` texts. */
  lemma DistinctTxnIds(d1: Node, d2: Node, c: Credentials, r1: CreateTransactionRequest, r2: CreateTransactionRequest, tt: Enums.TransactionType)
    requires Encodes(d1, c, r1, tt) && Encodes(d2, c, r2, tt)
    requires ValidRequest(r1) && ValidRequest(r2) && r1.TxnId != r2.TxnId
    ensures GetString(d1, "TxnId") != GetString(d2, "TxnId")
  {
    assert EncodesTag(d1, c, r1, tt, TxnId);
    assert EncodesTag(d2, c, r2, tt, TxnId);
  }

  /** An optional text field is found in an encoding document only when set, and then with its text. */
  lemma SentText(doc: Node, c: Credentials, req: CreateTransactionRequest, tt: Enums.TransactionType, t: RequestTag, s: Option<string>)
    requires EncodesTag(doc, c, req, tt, t)
    requires Present(req, t) == HasText(s) && Value(c, req, tt, t) == TextOf(s)
    ensures TagExists(doc, TagName(t)) ==> s.Some? && GetString(doc, TagName(t)) == Success(s.value)
  {
  }

  /** Every identifier and reference a valid request sends keeps to its documented maximum length. */
  lemma ReferenceLimitsEncoding(doc: Node, c: Credentials, req: CreateTransactionRequest, tt: Enums.TransactionType)
    requires Encodes(doc, c, req, tt) && ValidRequest(req)
    ensures TagExists(doc, "BillingId") ==> Utf16Length(GetString(doc, "BillingId").value) <= 32
    ensures TagExists(doc, "DpsBillingId") ==> Utf16Length(GetString(doc, "DpsBillingId").value) <= 16
    ensures TagExists(doc, "EmailAddress") ==> Utf8Length(GetString(doc, "EmailAddress").value) <= 255
    ensures TagExists(doc, "MerchantReference") ==> Utf8Length(GetString(doc, "MerchantReference").value) <= 64
  {
    SentText(doc, c, req, tt, BillingId, req.BillingId);
    SentText(doc, c, req, tt, DpsBillingId, req.DpsBillingId);
    SentText(doc, c, req, tt, EmailAddress, req.EmailAddress);
    SentText(doc, c, req, tt, MerchantReference, req.MerchantReference);
  }

  /** The free-text fields a valid request sends keep to their documented maximum length. */
  lemma FreeTextLimitsEncoding(doc: Node, c: Credentials, req: CreateTransactionRequest, tt: Enums.TransactionType)
    requires Encodes(doc, c, req, tt) && ValidRequest(req)
    ensures TagExists(doc, "TxnData1") ==> Utf8Length(GetString(doc, "TxnData1").value) <= 255
    ensures TagExists(doc, "TxnData2") ==> Utf8Length(GetString(doc, "TxnData2").value) <= 255
    ensures TagExists(doc, "TxnData3") ==> Utf8Length(GetString(doc, "TxnData3").value) <= 255
  {
    SentText(doc, c, req, tt, TxnData1, req.TxnData1);
    SentText(doc, c, req, tt, TxnData2, req.TxnData2);
    SentText(doc, c, req, tt, TxnData3, req.TxnData3);
  }

  /** The callback URL and the page options a valid request sends keep to their documented maximum length. */
  lemma OptionLimitsEncoding(doc: Node, c: Credentials, req: CreateTransactionRequest, tt: Enums.TransactionType)
    requires Encodes(doc, c, req, tt) && ValidRequest(req)
    ensures TagExists(doc, "UrlCallback") ==> Utf8Length(GetString(doc, "UrlCallback").value) <= 255
    ensures TagExists(doc, "Opt") ==> Utf8Length(GetString(doc, "Opt").value) <= 64
  {
    SentText(doc, c, req, tt, UrlCallback, req.UrlCallback);
    SentText(doc, c, req, tt, Opt, req.Opt);
  }

  /** A required text field is always found in an encoding document, with its text. */
  lemma RequiredText(doc: Node, c: Credentials, req: CreateTransactionRequest, tt: Enums.TransactionType, t: RequestTag, s: Option<string>)
    requires EncodesTag(doc, c, req, tt, t)
    requires Required(t) && Value(c, req, tt, t) == TextOf(s)
    ensures GetString(doc, TagName(t)) == Success(TextOf(s))
  {
  }

  /**
   * A valid request always sends a non-empty transaction id of at most 16 bytes and two
   * return URLs that start with their protocol and are at most 255 bytes.
   */
  lemma RequiredTextsEncoding(doc: Node, c: Credentials, req: CreateTransactionRequest, tt: Enums.TransactionType)
    requires Encodes(doc, c, req, tt) && ValidRequest(req)
    ensures GetString(doc, "TxnId").Success? && GetString(doc, "TxnId").value != ""
    ensures Utf8Length(GetString(doc, "TxnId").value) <= 16
    ensures GetString(doc, "UrlFail").Success? && StartsWithProtocol(GetString(doc, "UrlFail").value)
    ensures Utf8Length(GetString(doc, "UrlFail").value) <= 255
    ensures GetString(doc, "UrlSuccess").Success? && StartsWithProtocol(GetString(doc, "UrlSuccess").value)
    ensures Utf8Length(GetString(doc, "UrlSuccess").value) <= 255
  {
    RequiredText(doc, c, req, tt, TxnId, req.TxnId);
    RequiredText(doc, c, req, tt, UrlFail, req.UrlFail);
    RequiredText(doc, c, req, tt, UrlSuccess, req.UrlSuccess);
  }
}
