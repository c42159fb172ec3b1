/**
 * The ways the source's XML handling can throw. The source does not define these:
 * they name the .NET exception sites (a null element, a null attribute, a failed parse)
 * that the codec's try/catch blocks observe.
 */
module Faults {

  datatype Fault =
    /** `PostAsync` or `ReadAsStringAsync` threw: no reply was read. */
    | TransportFailed
    /** The HTTP status was not a success status. */
    | GatewayUnreachable
    /** `XmlDocument.LoadXml` rejected the body. */
    | MalformedXml
    /** `GetElementsByTagName(name)[0]` or `SelectNodes(name)[0]` was null. */
    | MissingTag(tag: string)
    /** `Attributes[name]` of an element was null. */
    | MissingAttribute(element: string, attribute: string)
    /** `Enum.Parse` found no variant with this name. */
    | UnknownEnumName(tag: string, text: string)
    /** `Convert.ToInt32` rejected the text (format or overflow). */
    | MalformedInteger(text: string)
    /** `new Uri(text)` rejected the text. */
    | MalformedUri(text: string)
}
