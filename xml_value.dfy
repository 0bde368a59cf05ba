/**
 * The data handled by the XML helpers: a parsed element tree (what SimpleXML
 * hands over) and the nested PHP array it is converted to, made explicit as
 * a tagged value.
 */
module XmlValue {
  import opened Wrappers
  import opened Assoc

  /**
   * A PHP array or string as the codec produces and consumes it: a string, an
   * associative array (keys in insertion order), or a list (keys 0, 1, ...).
   */
  datatype Value = Leaf(text: string) | Map(entries: seq<(string, Value)>) | List(items: seq<Value>)

  /** A parsed XML element: its name, attributes in document order, text content and child elements. */
  datatype Element = Element(name: string, attributes: seq<(string, string)>, text: string, children: seq<Element>)

  /**
   * What a PHP call can throw: an `Exception` with its message, a
   * `TypeError` (a value of the wrong type reached a typed parameter or
   * return), or another engine `Error` (such as writing a key into a
   * string). Only the first is caught by `catch (Exception $e)`.
   */
  datatype Throwable = Exception(message: string) | TypeError | Error

  /**
   * `$v[$k]` as `isset` and `??` see it. The client reads only fixed,
   * non-numeric keys, which a list (integer keys) or a string (no offset of
   * that name) never has.
   */
  function Get(v: Value, k: string): Option<Value>
  {
    if v.Map? then Lookup(v.entries, k) else None
  }

  /** `$v[$k1][$k2]`. */
  function Get2(v: Value, k1: string, k2: string): Option<Value>
  {
    match Get(v, k1)
    case None => None
    case Some(w) => Get(w, k2)
  }
}
