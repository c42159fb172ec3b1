# PxPay hosted-payment codec

This project models the PxPay side of the WindCave client library (BryantBrothers.WindCave). A `PxPayClient` holds a PxPay user id and key. It does three things:

- It turns a `CreateTransactionRequest` into a `GenerateRequest` XML document, posts it to the gateway and classifies the reply as a `CreateTransactionResult`. The result is either a secure payment URL or an error message.
- It wraps a response code in a `ProcessResponse` document, posts it, and copies the reply's elements into a `TransactionDetails` record.
- It reads every element through `XmlHelper`: the first element with a tag name, whether a tag exists, and a strict enumeration parse.

The XML document is an abstract tree (`XmlHelper.Node`): text nodes, and elements that have a name, attributes and ordered children. The gateway is a parameter `send` that maps the posted document to an `HttpReply`. A reply is either no reply at all or a status flag with an optional parsed body; the body is absent when it is not well-formed XML. Each .NET exception the source can raise on the way is a `Faults.Fault`. `ProcessResponse` lets that exception escape, so the model returns it as `Failure`. `CreateTransaction` catches it and reports it with its message prefix.

Modules:

- `XmlHelper` (Xml.dfy): `XmlHelper.cs` over the tree. `GetElementsByTagName` is a preorder filter, `InnerText` concatenates the text below an element, and `GetString`, `TagExists` and `GetEnum` are built on them.
- `Formatting` (Formatting.dfy): the amount text `(cents / 100.0).ToString("0.00")`, `Replace(".", "")`, and `Convert.ToInt32`/`int.ToString()` on 32-bit integers.
- `Enums` (Enums.dfy): the enumerations the client sends and reads, and their wire tokens.
- `Models` (Models.dfy): the request, result and details records, and `ValidRequest`, which collects the limits the request's property documentation states.
- `RequestEncoder` (Encoder.dfy): the children of `GenerateRequest` as a function of the request, and their properties.
- `PxPay` (PxPay.dfy): reply classification, the `ProcessResponse` field mapping, `GetCvcResultCode`, the `ProcessResponse` request, and the `PxPayClient` class. The class's methods build, post and decode step by step, and each is proved equal to the function that specifies it.
- `ReplyEcho` (Echo.dfy): a reply that carries every field of a `TransactionDetails`, and the proof that `ProcessResponse` reads it back as that record.

Where the intended behaviour and the code disagree, the model follows the code:

- The gateway's amount format has exactly two decimal places, so an amount text such as `"123.4"` is malformed. The code does not check this: it only deletes the dots and parses an integer, so `"123.4"` reads as 1234 cents. `Formatting.ParseAmountIgnoresPrecision` states this.
- A required string field that is null (a missing transaction id or URL, say) is not refused. `new XElement(name, null)` sends an empty element, and so does the model (`RequestEncoder.TextOf`).
- A reply whose `valid` attribute is not "1" is reported as an invalid request, even when it also carries a gateway error code in `Reco`. The code checks `valid` first and returns.

## Model

| member | source | states |
|---|---|---|
| XmlHelper.GetString | WindCave/XmlHelper.cs:19-22 | The document overload succeeds exactly when an element with the name exists anywhere. Otherwise it fails with a missing-tag fault; there is no default value. |
| XmlHelper.GetStringFirstInDocumentOrder | WindCave/XmlHelper.cs:21 | The text of the first element with the name in document order is returned; later elements with the same name are ignored. |
| XmlHelper.ElementsByTagNameIsFilter | WindCave/XmlHelper.cs:21 | `GetElementsByTagName` is the document-order list of all elements filtered by name. |
| XmlHelper.GetChildString | WindCave/XmlHelper.cs:30-33 | The node overload succeeds exactly when the node has a direct child element with the name, and then it returns that child's text. Deeper elements are not considered. |
| XmlHelper.TagExists | WindCave/XmlHelper.cs:41-44 | `TagExists` holds exactly when an element with the name occurs somewhere in the document. |
| XmlHelper.InsertAtElements | WindCave/XmlHelper.cs:21 | Inserting a subtree without elements named `t` anywhere in the document keeps the number of elements `GetElementsByTagName(t)` finds. When no element enclosing the insertion is named `t`, it keeps the list itself. |
| XmlHelper.OtherTagsDoNotMatter | WindCave/XmlHelper.cs:41-44 | Adding or removing a subtree without elements named `t`, at any depth, never changes `TagExists` for `t`. It does not change `GetString` for `t` either when no element enclosing that place is named `t`. |
| XmlHelper.GetEnum | WindCave/XmlHelper.cs:53-58 | Succeeds exactly when the tag exists and its text names a variant, which is then the result. A missing tag fails as `GetString` does, and an unknown name fails with an unknown-name fault. |
| XmlHelper.FlatDocumentLookup | WindCave/XmlHelper.cs:19-33 | In a document whose children are text leaves with distinct names, both overloads read each leaf back as its text. |
| XmlHelper.FlatDocumentFirst | WindCave/XmlHelper.cs:21 | In a document of text leaves, `GetString` gives the text of the first leaf with the name. |
| XmlHelper.FlatDocumentAbsent | WindCave/XmlHelper.cs:41-44 | In such a document, a name that no leaf and not the root carries does not exist. |
| Enums.ParseTransactionType | WindCave/XmlHelper.cs:57 | The strict parse gives variant `v` exactly when the text is `v`'s name. |
| Enums.ParseCurrency | WindCave/XmlHelper.cs:57 | The parse gives a currency exactly when the text is its name and the enumeration declares it. |
| Enums.ToLower | WindCave/PxPay/PxPayClient.cs:296 | Lower-cases each character and keeps the length. |
| Formatting.FormatAmount | WindCave/PxPay/PxPayClient.cs:269 | The amount text is a '-' exactly for negative amounts, at least one digit of whole units, a single '.', then exactly two digits. |
| Formatting.ParseAmount | WindCave/PxPay/PxPayClient.cs:100 | A text without dots is read as `Convert.ToInt32` reads it. A failure is a malformed-integer fault about the text with its dots removed. |
| Formatting.AmountRoundTrip | WindCave/PxPay/PxPayClient.cs:100 | Deleting the dots of the formatted amount and parsing the result gives back every 32-bit amount. |
| Formatting.AmountTextLength | WindCave/PxPay/Models/CreateTransactionRequest.cs:11-15 | Amounts from 0 to 99999999 cents ("999999.99") are written in at most nine characters. |
| Formatting.ParseAmountIgnoresPrecision | WindCave/PxPay/PxPayClient.cs:100 | Whole units followed by a single fractional digit read as ten times fewer cents than they denote. |
| Formatting.ParseInt32 | WindCave/PxPay/PxPayClient.cs:100 | `Convert.ToInt32` fails only with a malformed-integer fault that carries the text. |
| Formatting.ParseSignedDigits | WindCave/PxPay/PxPayClient.cs:100 | An optional '-' followed by digits whose value fits in 32 bits parses to that value. |
| Formatting.IntToStringRoundTrip | WindCave/PxPay/PxPayClient.cs:374 | `int.ToString()` of an installment value parses back to the same 32-bit value. |
| RequestEncoder.RequestFieldsStart | WindCave/PxPay/PxPayClient.cs:266-270 | The children begin with `PxPayUserId`, `PxPayKey` and `AmountInput`, in that order, with their values. |
| RequestEncoder.RequiredAlwaysEmitted | WindCave/PxPay/PxPayClient.cs:266-339 | The credentials, amount, currency, transaction type, transaction id and both return URLs are always children, whatever the request holds. |
| RequestEncoder.RequestFieldsPresence | WindCave/PxPay/PxPayClient.cs:272-381 | A tag is a child exactly when the request supplies it. Strings must be non-null and non-empty, the flags true, and the nullables must have a value. |
| RequestEncoder.RequestFieldsValues | WindCave/PxPay/PxPayClient.cs:272-381 | Every child is supplied by the request and holds its tag's value. |
| RequestEncoder.RequestFieldsOrdered | WindCave/PxPay/PxPayClient.cs:263-386 | The children follow the fixed source order, and no tag occurs twice. |
| RequestEncoder.RequestDocumentLookup | WindCave/PxPay/PxPayClient.cs:384 | Reading the document of the request's fields by tag gives the value of each supplied tag. Any other tag is absent. |
| RequestEncoder.GenerateRequest | WindCave/PxPay/PxPayClient.cs:263-387 | The built document has a `GenerateRequest` root and encodes the request tag by tag: each supplied tag reads back as its value, and every other tag is absent. |
| RequestEncoder.FlagsEncoding | WindCave/PxPay/PxPayClient.cs:287-369 | `EnableAddBillCard` and `DebtRepaymentIndicator` are sent as "1" when true and not at all otherwise, so "0" is never sent. |
| RequestEncoder.EnumEncoding | WindCave/PxPay/PxPayClient.cs:279-330 | The currency and the transaction type are sent by variant name. |
| RequestEncoder.RecurringModeEncoding | WindCave/PxPay/PxPayClient.cs:294-297 | A recurring mode that is set is sent as its lower-cased variant name. An unset one is not sent. |
| RequestEncoder.ClientOptionsEncoding | WindCave/PxPay/PxPayClient.cs:353-363 | A client type or forced payment method that is set is sent by variant name. An unset one is not sent. |
| RequestEncoder.AmountEncoding | WindCave/PxPay/PxPayClient.cs:269 | A valid request's amount is sent as its formatted text, in at most nine characters, and parses back to the cents. |
| RequestEncoder.EmitPurchaseAuth | WindCave/PxPay/PxPayClient.cs:330 | For every tag, a purchase and an authorisation emit the same fields, except for `TxnType`. |
| RequestEncoder.TxnTypeField | WindCave/PxPay/PxPayClient.cs:330 | The `TxnType` child names the transaction type. |
| RequestEncoder.PurchaseAuthAgree | WindCave/PxPay/PxPayClient.cs:43-57 | A purchase and an authorisation of one request have the same tags in the same places, and equal children except `TxnType`. |
| RequestEncoder.PurchaseAuthDiffer | WindCave/PxPay/PxPayClient.cs:43-57 | They differ only in the `TxnType` text, which is "Purchase" for one and "Auth" for the other. |
| RequestEncoder.DistinctTxnIds | WindCave/PxPay/Models/CreateTransactionRequest.cs:97-102 | Two valid requests with different transaction ids produce documents with different `TxnId` texts. |
| RequestEncoder.RequiredTextsEncoding | WindCave/PxPay/Models/CreateTransactionRequest.cs:97-116 | A valid request always sends a non-empty `TxnId` of at most 16 bytes. Both return URLs are sent and start with a protocol such as "https://". Each is at most 255 bytes. |
| RequestEncoder.ReferenceLimitsEncoding | WindCave/PxPay/Models/CreateTransactionRequest.cs:17-69 | A sent `BillingId` is at most 32 chars and a sent `DpsBillingId` at most 16 chars. A sent `EmailAddress` is at most 255 bytes and a sent `MerchantReference` at most 64 bytes. |
| RequestEncoder.FreeTextLimitsEncoding | WindCave/PxPay/Models/CreateTransactionRequest.cs:71-95 | Each sent `TxnData1`-`TxnData3` is at most 255 bytes. |
| RequestEncoder.OptionLimitsEncoding | WindCave/PxPay/Models/CreateTransactionRequest.cs:118-131 | A sent `UrlCallback` is at most 255 bytes and a sent `Opt` at most 64 bytes. |
| PxPay.CvcResultFromToken | WindCave/PxPay/PxPayClient.cs:246-254 | Total: "M", "N", "P", "S" and "U" give their five codes. Every other text gives `Unknown`, and each case holds in both directions. |
| PxPay.CvcToken | WindCave/PxPay/PxPayClient.cs:246-254 | Every code has a token that the switch maps back to it. |
| PxPay.GetCvcResultCode | WindCave/PxPay/PxPayClient.cs:242-255 | Fails exactly when the tag is missing; otherwise it maps the first matching element's text through the switch. |
| PxPay.ProcessResponseRequest | WindCave/PxPay/PxPayClient.cs:394-403 | A `ProcessResponse` element with exactly three children: the user id, the key and the response code. |
| PxPay.FirstAttribute | WindCave/PxPay/PxPayClient.cs:94-97 | Reading the `valid` attribute of the first root element fails with a missing tag when there is no root. It fails with a missing attribute when the root has no such attribute. Otherwise it gives the first root element's attribute value. |
| PxPay.AfterStatus | WindCave/PxPay/PxPayClient.cs:190-222 | Gives a successful result exactly for `valid` "1", no `Reco` and a `URI` that parses, and then that URI. A missing `Request` element or `valid` attribute throws. `valid` other than "1" gives the invalid-request message. `Reco` gives the gateway's code and text, or throws when `ResponseText` is missing. A missing or unparsable `URI` throws. |
| PxPay.CreateOutcome | WindCave/PxPay/PxPayClient.cs:150-234 | Success holds exactly when the status is a success, `valid` is "1", there is no `Reco`, and `URI` exists and parses; the URL is then that text. Every other outcome is unsuccessful, with no URL and an error. A failed status returns before parsing. `valid` other than "1" gives the invalid-request message. `Reco` gives the gateway's code and text. A thrown fault gives the exception prefix. |
| PxPay.DecodeStatus | WindCave/PxPay/PxPayClient.cs:94-100 | The status step fails exactly when the `valid` attribute or a readable amount is missing. It sets only the validity flag and the amount. |
| PxPay.DecodeCard | WindCave/PxPay/PxPayClient.cs:101-109 | The card step fails exactly when one of its nine tags is missing. It sets only those fields, and `Success` means the text is "1". |
| PxPay.DecodeTransaction | WindCave/PxPay/PxPayClient.cs:110-121 | The transaction step fails exactly when a mandatory tag is missing or an enumeration text names no variant. It sets only its fields. `PaymentMethod` is "card payment" when its tag is absent. |
| PxPay.DecodeIdentifiers | WindCave/PxPay/PxPayClient.cs:122-132 | The identifier step fails exactly when a mandatory tag is missing. It sets only its fields. `ClientIpAddress` is null when its tag is absent. |
| PxPay.DecodeDocument | WindCave/PxPay/PxPayClient.cs:94-132 | The field mapping succeeds exactly when no lookup throws. It then applies the two defaults, compares both flags with "1" and reads the amount with its dots removed. |
| PxPay.DecodeReply | WindCave/PxPay/PxPayClient.cs:75-92 | No reply fails with a transport fault and an unsuccessful status with a gateway fault. A body that is not XML fails as malformed. A loaded body is decoded. |
| PxPay.ReadStatus | WindCave/PxPay/PxPayClient.cs:96-100 | Assigning the two status fields one by one gives the status step's result. |
| PxPay.ReadCard | WindCave/PxPay/PxPayClient.cs:101-109 | Assigning the card fields one by one gives the card step's result. |
| PxPay.ReadTransaction | WindCave/PxPay/PxPayClient.cs:110-121 | Assigning the transaction fields one by one gives the transaction step's result. |
| PxPay.ReadIdentifiers | WindCave/PxPay/PxPayClient.cs:122-132 | Assigning the identifier fields one by one gives the identifier step's result. |
| PxPay.PxPayClient.constructor | WindCave/PxPay/PxPayClient.cs:30-35 | Stores the user id, the key and the TLS flag, which defaults to true. |
| PxPay.PxPayClient.BuildTransactionXmlRequest | WindCave/PxPay/PxPayClient.cs:263-387 | Appending the required fields and each supplied optional field step by step gives the document `RequestEncoder.GenerateRequest` specifies. |
| PxPay.PxPayClient.CreateTransaction | WindCave/PxPay/PxPayClient.cs:150-234 | Filling the result through early returns and a caught fault gives `CreateOutcome` of the reply to the built document. |
| PxPay.PxPayClient.CreatePurchase | WindCave/PxPay/PxPayClient.cs:43-46 | Creates a transaction of type `Purchase`. |
| PxPay.PxPayClient.CreateAuth | WindCave/PxPay/PxPayClient.cs:54-57 | Creates a transaction of type `Auth`. |
| PxPay.PxPayClient.ProcessResponse | WindCave/PxPay/PxPayClient.cs:63-140 | Posting the `ProcessResponse` document and assigning the fields one by one gives `DecodeReply` of the reply. |
| ReplyEcho.StatusReadBack | WindCave/PxPay/PxPayClient.cs:96-100 | The status step reads back the validity flag and the amount of a reply that echoes a record. |
| ReplyEcho.CardReadBack | WindCave/PxPay/PxPayClient.cs:101-109 | The card step reads back the card and outcome fields of an echoed record. |
| ReplyEcho.TransactionReadBack | WindCave/PxPay/PxPayClient.cs:110-121 | The transaction step reads back the transaction fields, provided both currencies are declared variants. |
| ReplyEcho.IdentifiersReadBack | WindCave/PxPay/PxPayClient.cs:122-132 | The identifier step reads back the identifiers, the client address (null when absent) and the CVC result. |
| ReplyEcho.ReadBack | WindCave/PxPay/PxPayClient.cs:73-132 | The field mapping reads back every field of a record from any reply that echoes it and whose currencies are declared variants. |
| ReplyEcho.EchoRoundTrip | WindCave/PxPay/PxPayClient.cs:63-140 | The reply that carries every field of a record decodes exactly when its currencies are declared variants. It then decodes to that record. |

## Left out

- HTTP transport: the static `HttpClient`, `PostAsync` and `ReadAsStringAsync` are not modelled. The round trip is the parameter `send`, and a thrown transport exception is the `NoReply` reply.
- TLS selection: the global `ServicePointManager` switch has no effect on the model. `UseTls12` is stored only.
- XML text: parsing (`LoadXml`), serialisation (`XElement.ToString`), escaping, namespaces, the `*` wildcard and whitespace-only nodes are not modelled. Documents are trees, and a body that does not load is `Body == None`.
- `new Uri(text)`: it is the parameter `uriParses`; a rejected text is the fault the catch block reports.
- Exception messages: the .NET wording of `e.Message` is replaced by `PxPay.FaultMessage`. Only the prefix and the messages the source writes itself are exact; the one `ProcessResponse` throws on an unsuccessful status is `PxPay.NoResponseMessage`. The rethrow in `ProcessResponse` returns the fault unchanged.
- Culture: `ToLower()` on the recurring mode name uses the current culture. Under a Turkish culture `RecurringInitial` would be sent with a dotless 'ı'. `Enums.ToLower` lower-cases ASCII letters only, as the invariant culture does.
- A null `CreateTransactionRequest`: `BuildTransactionXmlRequest` would throw a `NullReferenceException` outside the `try` block. A datatype value is never null, so this path does not exist in the model.
- `Enum.Parse` leniency: numeric texts, comma lists and surrounding white space are not accepted. The parse is a strict name match.
- Currency enumerations: `PxPayCurrency` and `WindCaveCurrency` are not part of this model. A currency is its variant name, and the set of names the enumeration declares is a parameter.
- Floating point: `(cents / 100.0).ToString("0.00")` is computed exactly with integer division under the invariant culture. Rounding of the double and culture-specific separators are not modelled.
- `Convert.ToInt32`: trailing NUL characters, which .NET also accepts, are not modelled.
- `ForcePaymentMethod`: the source calls `ToString()` on the nullable itself, which gives the variant name for a set value; the model writes that name.
- `XmlHelper.GetChildString`: `SelectNodes(tagName)` is modelled for a plain name only, meaning the direct child elements with that name. XPath expressions are not modelled.
- The PxPost client, its result record and its enumerations carry no encode or decode logic and are not part of this model.
