# laravel-innvoice, modelled in Dafny

laravel-innvoice is a Laravel client for the Hungarian invoicing service
Innvoice. It turns an invoice, given as a PHP array, into an XML fragment and
posts it to the service. It then reads the XML answer back into an array and
returns a small array describing the outcome: the technical id, the invoice
number, the print URL and the table id. When the answer has a print URL, it
also saves the PDF under the storage directory.

This project models the three files that do that work:

- `XMLHelpers`:
  - cleaning the raw answer (`xml_clean.dfy`);
  - converting a parsed XML element into an array (`xml_decode.dfy`);
  - writing an array out as XML (`xml_encode.dfy`).
  `round_trip.dfy` states how the two directions fit together.
- `LaravelInnvoice`:
  - adding the line items to the payload (`items.dfy`);
  - checking the answer for an API error, the error handler, the download
    and the shaping of the result array (`api_response.dfy`);
  - the client class with its two create operations (`client.dfy`).
- `AFAKulcsEnum`: the VAT-rate enum (`afa.dfy`).

Shared pieces:

- `wrappers.dfy`: `Option` and `Result`. PHP's throwables are `Exception`,
  `TypeError` and `Error`. Only the first is caught by the source's
  `catch (Exception $e)`.
- `text.dfy`: substring search, and the lazy `(.*?)` group of a PCRE match.
- `assoc.dfy`: PHP's ordered arrays as sequences of key/value pairs.
  `$a[$k] = $v` replaces the value in place when the key exists and appends
  the pair otherwise.
- `xml_value.dfy`: an array value is a string leaf, an ordered map or a
  list.

Services the library reaches through Laravel are parameters of the model
(`InnvoiceClient.Services`):

- the HTTP post of a payload;
- `simplexml_load_string`;
- the proforma-number lookup;
- the PDF fetch, which gives a status code or a throwable;
- `storage_path`.

Where the written code and its documented intent differ, the model follows
the code:

- With several line items, the keys of the first item carry the suffix `1`
  (`TetelNev1`). Only a single item gets unsuffixed keys.
- An element with attributes but no children decodes to its text alone. Its
  attributes are dropped.
- A list is not written with its key repeated around each entry. The key
  wraps the whole list once. A string entry is written under its index
  (`<item><0>…</0><1>…</1></item>`, `XmlRoundTrip.RepeatedNamesNest`). An
  array entry has a numeric key, so it gets no wrapper: the arrays' output
  is concatenated inside the one element
  (`XmlRoundTrip.RepeatedArraysJoin`).
- `checkForApiErrors` looks only under `response`. An answer whose `error`
  sits directly under the root is not noticed as an error; it yields the
  creation-failure array (`InnvoiceClient.UnrecognisedAnswer`).
- The enum has 19 cases.

## Model

| member | source | states |
|---|---|---|
| Text.Find | src/LaravelInnvoice.php:196-197 | the result is the first occurrence of the pattern at or after `from`; none means there is no occurrence there |
| Text.FindDelimited | src/LaravelInnvoice.php:196-197 | a lazy `open(.*?)close` match is found exactly when an opener is followed by a closer; it is the leftmost opener and the first closer after it |
| Text.DelimitedAt | src/LaravelInnvoice.php:196-197 | in `pre + open + x + close + post`, with no earlier opener and no closer inside `x`, the match spans exactly `x` |
| Text.FirstGroupAt | src/Helpers/XMLHelpers.php:38 | under the same conditions the captured group is `x` |
| Text.NatToString | src/LaravelInnvoice.php:215 | an integer interpolated into a string gives a non-empty run of decimal digits, one digit long exactly below 10 |
| Text.NatToStringInjective | src/LaravelInnvoice.php:215 | distinct item numbers give distinct suffixes |
| Text.ReplaceChar | src/LaravelInnvoice.php:69 | `str_replace` of one character keeps the length and replaces exactly the matching positions |
| Assoc.Lookup | src/Helpers/XMLHelpers.php:51 | `isset` on an array key fails exactly when no entry has that key |
| Assoc.LookupAt | src/Helpers/XMLHelpers.php:51 | with distinct keys, each entry is found under its own key |
| Assoc.PutSpec | src/Helpers/XMLHelpers.php:57 | after `$a[$k] = $v`, the key reads `v` and every other key reads as before; the key order is kept, with a new key appended; distinct keys stay distinct |
| Assoc.PutLookup | src/Helpers/XMLHelpers.php:57 | reading any key after an assignment |
| Assoc.PutNew | src/Helpers/XMLHelpers.php:57 | assigning an absent key appends the pair |
| Assoc.PutKeys | src/Helpers/XMLHelpers.php:57 | assignment leaves the key order unchanged or appends the new key |
| Assoc.PutDistinct | src/Helpers/XMLHelpers.php:57 | assignment keeps keys distinct |
| Assoc.PutTwice | src/LaravelInnvoice.php:217-222 | assigning the same key twice is the same as assigning only the second value |
| Assoc.KeysLookup | src/Helpers/XMLHelpers.php:51 | a key is among the keys exactly when `isset` finds it |
| XmlClean.RemoveTabsSpec | src/Helpers/XMLHelpers.php:73 | no tab remains, and text without tabs is left as it is |
| XmlClean.RemoveTabsConcat | src/Helpers/XMLHelpers.php:73 | removing tabs splits over concatenation |
| XmlClean.TabIsDropped | src/Helpers/XMLHelpers.php:73 | a tab inside a text is removed and the text around it is joined |
| XmlClean.CollapseSpaceSpec | src/Helpers/XMLHelpers.php:74 | after collapsing, the only whitespace is the plain space, never two in a row; a leading blank stays a blank; collapsed text is left as it is |
| XmlClean.CollapsedHasNoNewline | src/Helpers/XMLHelpers.php:74-77 | collapsed text holds no newline, which is why the blank-line rule never applies |
| XmlClean.SqueezeWithoutNewline | src/Helpers/XMLHelpers.php:77 | the blank-line rule changes nothing in text without newlines, so after step 74 it is a no-op |
| XmlClean.TightenTagsSpec | src/Helpers/XMLHelpers.php:80 | on collapsed text, removing blanks between tags keeps it collapsed, leaves no blank between `>` and `<`, keeps the first character, and leaves text without such gaps as it is |
| XmlClean.TrimSpec | src/Helpers/XMLHelpers.php:82 | `trim` gives the slice between the first and the last untrimmable character, and leaves text without trimmable ends as it is |
| XmlClean.CleanIsTidy | src/Helpers/XMLHelpers.php:70-83 | the cleaned text has no tab or newline, no two blanks side by side, no blank between tags and no blank at either end |
| XmlClean.TrimIsTidy | src/Helpers/XMLHelpers.php:82 | trimming text that is collapsed and has no gap between tags gives tidy text |
| XmlClean.TidyIsFixedPoint | src/Helpers/XMLHelpers.php:70-83 | cleaning leaves tidy text as it is |
| XmlClean.CleanIsIdempotent | src/Helpers/XMLHelpers.php:70-83 | cleaning twice is cleaning once |
| XmlClean.BlankBetweenTagsGoes | src/Helpers/XMLHelpers.php:80 | `<a> <b>` is cleaned to `<a><b>` |
| XmlDecode.ToValue | src/Helpers/XMLHelpers.php:18-62 | an element becomes a string exactly when it has no children; it never becomes a list |
| XmlDecode.XmlToArray | src/Helpers/XMLHelpers.php:18-62 | the recursive conversion, written with its loops over the attributes and the children, computes `ToValue` |
| XmlDecode.CollectAttributes | src/Helpers/XMLHelpers.php:23-28 | the attribute loop builds the `@attributes` entry of the array, or nothing when there are no attributes |
| XmlDecode.GroupStep | src/Helpers/XMLHelpers.php:46-59 | one more turn of the children loop adds the next child under its name |
| XmlDecode.ParseXmlToArray | src/Helpers/XMLHelpers.php:91-104 | the result is an array exactly when the cleaned text parses to an element with children; unparsable text throws `Exception('Failed to parse XML string')`; a childless root gives a throwable that is not an `Exception` (PHP's `TypeError`: a string is returned where an array is declared) |
| XmlDecode.UnwrapsSection | src/Helpers/XMLHelpers.php:37-40 | a text that is one CDATA section yields its content |
| XmlDecode.UnwrapsNothing | src/Helpers/XMLHelpers.php:37-40 | a text without a CDATA opener is returned unchanged |
| XmlDecode.AttributeNames | src/Helpers/XMLHelpers.php:25-27 | the `@attributes` map has distinct names, and it has exactly the names of the element's attributes |
| XmlDecode.AttributesInOrder | src/Helpers/XMLHelpers.php:25-27 | attributes with distinct names appear in document order, each with its value as a string |
| XmlDecode.AddChildLookup | src/Helpers/XMLHelpers.php:51-57 | adding a child under a name gives that name the child's value, or the list of all values seen so far |
| XmlDecode.GroupLookup | src/Helpers/XMLHelpers.php:46-59 | after the loop, a name holds its one child's value, or the list of all its children's values in document order |
| XmlDecode.GroupUntouched | src/Helpers/XMLHelpers.php:46-59 | names that no child has are left as they were |
| XmlDecode.GroupKeys | src/Helpers/XMLHelpers.php:46-59 | the keys come in the order in which names are first seen |
| XmlDecode.GroupDistinct | src/Helpers/XMLHelpers.php:46-59 | each name appears once among the keys |
| XmlDecode.ChildLookup | src/Helpers/XMLHelpers.php:46-59 | reading a key of a converted element gives its children of that name: absent, one value, or their list |
| XmlDecode.AttributesLookup | src/Helpers/XMLHelpers.php:23-28 | an element with children and attributes keeps them under `@attributes`, as the first entry |
| XmlEncode.DecimalIsNumeric | src/Helpers/XMLHelpers.php:131 | every list index is numeric for `is_numeric` |
| XmlEncode.NameIsNotNumeric | src/Helpers/XMLHelpers.php:131 | a key starting with a letter is not numeric |
| XmlEncode.ArrayToXml | src/Helpers/XMLHelpers.php:124-147 | the loop over the entries produces exactly the concatenated encoding of the entries |
| XmlEncode.BuildXmlFromArray | src/Helpers/XMLHelpers.php:112-115 | the builder gives the encoding of the whole array |
| XmlEncode.EncodeConcat | src/Helpers/XMLHelpers.php:128-146 | the encoding of two arrays joined is the two encodings joined |
| XmlEncode.EncodeLeafEntry | src/Helpers/XMLHelpers.php:142 | a string value is written as `<key><![CDATA[value]]></key>` |
| XmlEncode.EncodeNamedEntry | src/Helpers/XMLHelpers.php:134-139 | an array under a non-numeric key is wrapped in the key's tags |
| XmlEncode.EncodeNumericEntry | src/Helpers/XMLHelpers.php:131-133 | an array under a numeric key is written without a wrapper |
| XmlEncode.SingleEntry | src/Helpers/XMLHelpers.php:128-146 | a one-entry array is written as that entry |
| XmlRoundTrip.RoundTrip | src/Helpers/XMLHelpers.php:18-147 | converting a tree with distinct sibling names and writing it back gives its children again, each leaf text in a CDATA section |
| XmlRoundTrip.NoMerging | src/Helpers/XMLHelpers.php:46-59 | with distinct sibling names, every child keeps its own entry, in document order |
| XmlRoundTrip.RepeatedNamesMerge | src/Helpers/XMLHelpers.php:50-55 | two siblings of one name become one list under that name |
| XmlRoundTrip.RepeatedNamesNest | src/Helpers/XMLHelpers.php:129-138 | such a list is not written back as the two siblings |
| XmlRoundTrip.ListOfArrays | src/Helpers/XMLHelpers.php:128-133 | a list of two arrays is written as the two arrays' output concatenated, with no wrapper for either index |
| XmlRoundTrip.RepeatedArraysJoin | src/Helpers/XMLHelpers.php:129-138 | such a list under a name is one element around both arrays' output |
| VatRate.Cases | src/Enums/AFAKulcsEnum.php:7-30 | there are 19 cases |
| VatRate.CasesComplete | src/Enums/AFAKulcsEnum.php:5-31 | every case is listed, and each exactly once |
| VatRate.LabelInjective | src/Enums/AFAKulcsEnum.php:7-30 | the backing strings are distinct |
| VatRate.LabelShape | src/Enums/AFAKulcsEnum.php:7-30 | exactly the untaxed cases are labelled `0% - …` |
| VatRate.TryFrom | src/Enums/AFAKulcsEnum.php:5-31 | a case is found exactly when some case has the string as its backing value, and the case found has it |
| VatRate.TryFromLabel | src/Enums/AFAKulcsEnum.php:5-31 | looking up a case's backing string gives that case back |
| InvoiceItems.AddItemsToInvoice | src/LaravelInnvoice.php:210-224 | the loop over the items computes `AddItems`, which writes each item's six fields under `invoices` / `invoice` |
| InvoiceItems.WriteItem | src/LaravelInnvoice.php:215-222 | one turn writes one item's six keys; the first write fails only when `invoices` or `invoice` already holds a string |
| InvoiceItems.AddItems | src/LaravelInnvoice.php:210-224 | the result, when there is one, is an array |
| InvoiceItems.AddItemsOutcome | src/LaravelInnvoice.php:210-224 | no items leave the payload as it is; adding items fails exactly when `invoices` or `invoice` holds a string, and the failure is an `Error` |
| InvoiceItems.FirstItemSuffix | src/LaravelInnvoice.php:215 | a single item has no suffix; with several items the first has suffix `1` |
| InvoiceItems.ItemKeyInjective | src/LaravelInnvoice.php:215-222 | two writes for different fields or different items never share a key |
| InvoiceItems.ItemStored | src/LaravelInnvoice.php:214-223 | after the loop, each item's fields are stored under their suffixed keys |
| InvoiceItems.InvoiceOthersUnchanged | src/LaravelInnvoice.php:214-223 | other keys of the invoice keep their values |
| InvoiceItems.OutsideUnchanged | src/LaravelInnvoice.php:217-222 | keys outside `invoices`, and siblings of `invoice`, keep their values |
| InvoiceItems.WithInvoiceTwice | src/LaravelInnvoice.php:217-222 | replacing the invoice twice is replacing it once |
| ApiResponse.CheckForApiErrors | src/LaravelInnvoice.php:134-142 | an exception is thrown exactly when `response.error` is set, and its message starts with `API Error ` |
| ApiResponse.ApiErrorReported | src/LaravelInnvoice.php:136-140 | the message is `API Error code: message`, with the default text when no message is given |
| ApiResponse.ReplaceCdata | src/LaravelInnvoice.php:202 | removing CDATA markers never lengthens the text |
| ApiResponse.ReplaceNothing | src/LaravelInnvoice.php:202 | text without a CDATA opener is kept |
| ApiResponse.ReplaceSection | src/LaravelInnvoice.php:202 | the first CDATA section is replaced by its content, and the rest is processed the same way |
| ApiResponse.HandleApiError | src/LaravelInnvoice.php:193-208 | the handler always throws an `Exception`; its message starts with `API Error ` exactly when the body contains `<error>`, and otherwise it is the parse-failure message followed by the original message |
| ApiResponse.HandledCode | src/LaravelInnvoice.php:195-204 | the code is the text of the first `<error>` element |
| ApiResponse.HandledMessage | src/LaravelInnvoice.php:197-204 | a message wrapped in CDATA is reported without the markers |
| ApiResponse.HandledNoMessage | src/LaravelInnvoice.php:197-204 | without a `<message>` element, the default message is used |
| ApiResponse.SafeFileNameSpec | src/LaravelInnvoice.php:69 | the file name keeps the number's length, contains no `/`, changes only the slashes, and sanitising twice is sanitising once |
| ApiResponse.DownloadInvoice | src/LaravelInnvoice.php:67-88 | the download succeeds exactly when the fetch gives a 2xx status |
| ApiResponse.DownloadPath | src/LaravelInnvoice.php:67-88 | the path is `dir/name.pdf` with a name free of slashes; a non-2xx status throws `Failed to download invoice PDF: HTTP <status>` |
| ApiResponse.NumberOrTechid | src/LaravelInnvoice.php:155-159 | only a non-`Exception` throwable escapes the number lookup |
| ApiResponse.SettledKeys | src/LaravelInnvoice.php:148-175 | a recognised answer gives four fields, with `techid` first and no error keys |
| ApiResponse.ProformaFields | src/LaravelInnvoice.php:150-165 | for a proforma: techid, the looked-up number (or the techid when the lookup throws an `Exception`), the print URL and the table id, in that order |
| ApiResponse.InvoiceFields | src/LaravelInnvoice.php:166-175 | for an invoice: techid, `Sorszam` (or the techid when it is absent), the print URL and the table id |
| ApiResponse.AfterDownloadSpec | src/LaravelInnvoice.php:177-184 | the download is tried only for a truthy URL; the failure annotation is added exactly when the download throws an `Exception`; other throwables escape |
| ApiResponse.NoUrlNoDownload | src/LaravelInnvoice.php:177-184 | without a truthy URL, the fetch does not affect the result |
| ApiResponse.CreationFailedExactly | src/LaravelInnvoice.php:148-188 | the result is the creation-failure array exactly when neither techid is set |
| ApiResponse.ResponseNeverThrowsException | src/LaravelInnvoice.php:144-191 | shaping the result never throws an `Exception` |
| InnvoiceClient.LaravelInnvoice.constructor | src/LaravelInnvoice.php:23-30 | the five settings are stored |
| InnvoiceClient.LaravelInnvoice.CreateInvoice | src/LaravelInnvoice.php:41-65 | adds the items, posts the encoded payload to the company's invoice endpoint and handles the answer |
| InnvoiceClient.LaravelInnvoice.CreateInvoiceFromProforma | src/LaravelInnvoice.php:90-112 | posts the encoded payload to the proforma endpoint and handles the answer |
| InnvoiceClient.LaravelInnvoice.Respond | src/LaravelInnvoice.php:53-64 | parse, check and shape the answer; any `Exception` goes to the error handler, which rethrows |
| InnvoiceClient.LaravelInnvoice.ProcessSuccessfulResponse | src/LaravelInnvoice.php:144-191 | builds the result array step by step, as `ResponseData` specifies |
| InnvoiceClient.LaravelInnvoice.FillFields | src/LaravelInnvoice.php:148-175 | picks the proforma branch, the invoice branch or none |
| InnvoiceClient.LaravelInnvoice.FillProforma | src/LaravelInnvoice.php:150-165 | the proforma branch's four assignments and its download settings |
| InnvoiceClient.LaravelInnvoice.FillInvoice | src/LaravelInnvoice.php:166-175 | the invoice branch's four assignments and its download settings |
| InnvoiceClient.LaravelInnvoice.TryDownload | src/LaravelInnvoice.php:177-184 | the download step and the annotation it adds on failure |
| InnvoiceClient.ResultNeverEmpty | src/LaravelInnvoice.php:53-64 | a returned array always has at least two entries; the create operations never return an empty array, because the handler always throws |
| InnvoiceClient.EscapingExceptionsRewritten | src/LaravelInnvoice.php:60-61 | every `Exception` leaving a create operation is an API error or the parse-failure message |
| InnvoiceClient.UnparsableBody | src/LaravelInnvoice.php:193-208 | an unparsable answer without `<error>` fails with `Failed to parse API response: Failed to parse XML string` |
| InnvoiceClient.ReportedErrorRethrown | src/LaravelInnvoice.php:53-64 | an answer with `response.error` leads to the handler's exception, called with the message of the exception thrown by `ApiResponse.CheckForApiErrors` (`checkForApiErrors`) |
| InnvoiceClient.UnrecognisedAnswer | src/LaravelInnvoice.php:136 | an answer without `response`, `invoice` or `proforma_invoice` children, even one with a top-level `error`, gives the creation-failure array |

## Left out

- HTTP is not modelled. `Http::post`, `Http::get`, the proforma-number request and the response status are the oracles in `InnvoiceClient.Services`. `successful()` is a 2xx status.
- `getInvoceNumberFromProforma` (src/LaravelInnvoice.php:114-123) is the `lookup` oracle. Its own request and parse are not unfolded.
- `getCheckbooks` is not modelled. It is only an HTTP GET followed by `parseXmlToArray`, which is modelled.
- `setHeaders` is not modelled: the Basic authorisation header and base64 from RFC 4648 section 4.
- The filesystem is not modelled: `file_exists`, `mkdir`, `file_put_contents`. `storage_path` is an oracle, and the saved PDF bytes are not modelled.
- Reading `config/innvoice.php` is not modelled. Its default storage path `app/public/innvoice` is not modelled either. The constructor takes the five settings as arguments.
- `simplexml_load_string` is an oracle that gives an element tree or nothing. Namespaced children, mixed content, entity handling and comments are not modelled.
- Element and attribute names are assumed to be SimpleXML names. A child named `@attributes` is excluded where it would clash with the attribute entry.
- Scalars other than strings are not modelled: integers, booleans, floats, null. Leaves are strings, and PHP's conversion of decimal string keys to integer keys is not modelled. `is_numeric` is applied to the key's text, so it makes the same choice.
- Laravel's conversion of PHP warnings into `ErrorException` is not modelled. Examples are "undefined array key" and "Array to string conversion". An array interpolated into a message is rendered as `Array`, as PHP does without that conversion.
- The `$rootNodeName` parameter of `arrayToXml` is not modelled. It is passed down but never used in the output.
- The `$tetelek === null` check in `createInvoice` is not modelled. A typed `array` parameter can never be null, so the check is dead code.
- InvoiceItems.AddItemsToInvoice: the items are a list keyed `0`..`n-1`, and the suffix is the item's position plus one. The source takes the suffix from the `foreach` key (src/LaravelInnvoice.php:214-215). Other keys are not modelled: with keys `1` and `2` PHP writes `TetelNev2` and `TetelNev3`, and a non-numeric string key makes `$index + 1` throw a `TypeError`.
- InvoiceItems.AddItemsToInvoice: a line item is a record with the six fields. An item array missing one of those keys, which PHP reads as null with a warning, is not modelled.
- `AFAKulcsEnum::from()` and its `ValueError` are not modelled. `tryFrom` is modelled.
- Strings are sequences of characters, not UTF-8 bytes. The label `0% - ÁTK` is one character longer in bytes.
- ApiResponse.ReplaceCdata: the function's own contract is only a length bound. Its full behaviour is stated by `ReplaceSection` and `ReplaceNothing`, which cover texts whose CDATA sections are closed.
