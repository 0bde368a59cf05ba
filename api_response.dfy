/**
 * How `LaravelInnvoice` reads the service's answer: the API-error check on
 * the converted response, the fallback that digs an error out of the raw
 * body, the file name an invoice PDF is stored under, and the array
 * `processSuccessfulResponse` returns.
 *
 * The service calls are parameters: `lookup` is `getInvoceNumberFromProforma`
 * (the invoice number for a proforma's technical id, or what it throws) and
 * `fetch` is the HTTP status of a GET of the PDF's URL (or what the client
 * throws).
 */
module ApiResponse {
  import opened Wrappers
  import opened Text
  import opened Assoc
  import opened XmlValue
  import opened XmlDecode

  /** A value of the returned PHP array: a converted value, an integer, or `null`. */
  datatype Datum = Val(v: Value) | Int(n: int) | Null

  /** `"{$v}"`: a string interpolates as itself, an array as `Array`. */
  function Interpolated(v: Value): string
  {
    if v.Leaf? then v.text else "Array"
  }

  // ---------------------------------------------------------------------
  // `checkForApiErrors`.

  const NoMessage: string := "No error message provided"

  /** `"API Error {$code}: {$message}"`. */
  function ApiError(code: string, message: string): Throwable
  {
    Exception("API Error " + code + ": " + message)
  }

  /** `checkForApiErrors($parsed)`: what it throws, if anything. */
  function CheckForApiErrors(parsed: Value): (r: Option<Throwable>)
    ensures r.Some? <==> Get2(parsed, "response", "error").Some?
    ensures r.Some? ==> r.value.Exception? && |r.value.message| >= 10 && r.value.message[..10] == "API Error "
  {
    match Get2(parsed, "response", "error")
    case None => None
    case Some(code) =>
      var message := match Get2(parsed, "response", "message") case Some(m) => Interpolated(m) case None => NoMessage;
      Some(ApiError(Interpolated(code), message))
  }

  /** The error code and message of a nested `response` come out in the exception's message. */
  lemma ApiErrorReported(parsed: Value, code: string, message: string)
    requires Get2(parsed, "response", "error") == Some(Leaf(code))
    ensures Get2(parsed, "response", "message") == Some(Leaf(message)) ==>
      CheckForApiErrors(parsed) == Some(Exception("API Error " + code + ": " + message))
    ensures Get2(parsed, "response", "message").None? ==>
      CheckForApiErrors(parsed) == Some(Exception("API Error " + code + ": " + NoMessage))
  {
  }

  // ---------------------------------------------------------------------
  // `handleApiError`.

  /** `preg_replace('/<!\[CDATA\[(.*?)\]\]>/s', '$1', $s)`: every CDATA section, left to right, replaced by its content. */
  function ReplaceCdata(s: string): (r: string)
    ensures |r| <= |s|
    decreases |s|
  {
    match FindDelimited(s, CdataOpen, CdataClose)
    case None => s
    case Some((p, q)) => s[..p] + s[p + |CdataOpen|..q] + ReplaceCdata(s[q + |CdataClose|..])
  }

  /** Text without a CDATA opener is left alone. */
  lemma ReplaceNothing(s: string)
    requires !Contains(s, CdataOpen)
    ensures ReplaceCdata(s) == s
  {
  }

  /** The first section is unwrapped, and the replacement goes on after it. */
  lemma ReplaceSection(pre: string, x: string, post: string)
    requires !Contains(pre + "<![CDATA", CdataOpen)
    requires !Contains(x + "]]", CdataClose)
    ensures ReplaceCdata(pre + CdataOpen + x + CdataClose + post) == pre + x + ReplaceCdata(post)
  {
    var s := pre + CdataOpen + x + CdataClose + post;
    assert CdataOpen[..|CdataOpen| - 1] == "<![CDATA";
    assert CdataClose[..|CdataClose| - 1] == "]]";
    DelimitedAt(s, CdataOpen, CdataClose, pre, x, post);
    var q := |pre| + |CdataOpen| + |x|;
    assert s[..|pre|] == pre;
    assert s[q + |CdataClose|..] == post;
  }

  /** A string none of whose characters starts `pat` does not contain it. */
  lemma AbsentFirstChar(s: string, pat: string)
    requires |pat| > 0 && forall i :: 0 <= i < |s| ==> s[i] != pat[0]
    ensures !Contains(s, pat)
  {
    forall i | 0 <= i <= |s|
      ensures !OccursAt(s, pat, i)
    {
      if i + |pat| <= |s| {
        assert s[i..i + |pat|][0] == s[i];
      }
    }
  }

  /** The capture group of the first `open(.*?)close`, or a default when there is no match. */
  function GroupOr(s: string, open: string, close: string, default: string): string
  {
    match FirstGroup(s, open, close)
    case Some(g) => g
    case None => default
  }

  /** The prefix `handleApiError` puts before a message it cannot improve on. */
  const Unreadable: string := "Failed to parse API response: "

  /**
   * `handleApiError($body, $e)`: it always throws. A body mentioning
   * `<error>` gives an API error built from the first `<error>` and
   * `<message>` elements found in the text; any other body gives a parse
   * failure quoting the original exception's message.
   */
  function HandleApiError(body: string, original: string): (r: Throwable)
    ensures r.Exception?
    ensures Contains(body, "<error>") <==> |r.message| >= 10 && r.message[..10] == "API Error "
    ensures !Contains(body, "<error>") ==> r.message == Unreadable + original
  {
    if Contains(body, "<error>") then
      var code := GroupOr(body, "<error>", "</error>", "Unknown");
      var message := GroupOr(body, "<message>", "</message>", NoMessage);
      ApiError(code, ReplaceCdata(message))
    else
      var r := Exception(Unreadable + original);
      assert r.message[0] == 'F';
      r
  }

  /** The code is the text of the first `<error>` element, CDATA and all. */
  lemma HandledCode(body: string, pre: string, code: string, post: string, original: string)
    requires body == pre + "<error>" + code + "</error>" + post
    requires !Contains(pre + "<error", "<error>")
    requires !Contains(code + "</error", "</error>")
    ensures HandleApiError(body, original).message == "API Error " + code + ": " + ReplaceCdata(GroupOr(body, "<message>", "</message>", NoMessage))
  {
    assert "<error>"[..6] == "<error";
    assert "</error>"[..7] == "</error";
    FirstGroupAt(body, "<error>", "</error>", pre, code, post);
    assert Contains(body, "<error>") by {
      assert body[|pre|..|pre| + 7] == "<error>";
      assert OccursAt(body, "<error>", |pre|);
    }
  }

  /** A message that is one CDATA section is reported without the wrapper. */
  lemma HandledMessage(body: string, m: string, original: string)
    requires Contains(body, "<error>")
    requires FirstGroup(body, "<message>", "</message>") == Some(CdataOpen + m + CdataClose)
    requires !Contains(m + "]]", CdataClose)
    ensures HandleApiError(body, original) == ApiError(GroupOr(body, "<error>", "</error>", "Unknown"), m)
  {
    UnwrapOne(m);
  }

  /** One whole CDATA section is replaced by its content. */
  lemma UnwrapOne(m: string)
    requires !Contains(m + "]]", CdataClose)
    ensures ReplaceCdata(CdataOpen + m + CdataClose) == m
  {
    assert !Contains("" + "<![CDATA", CdataOpen);
    ReplaceSection("", m, "");
    assert "" + CdataOpen + m + CdataClose + "" == CdataOpen + m + CdataClose;
  }

  /** Without a `<message>` element the message defaults. */
  lemma HandledNoMessage(body: string, original: string)
    requires Contains(body, "<error>")
    requires FirstGroup(body, "<message>", "</message>").None?
    ensures HandleApiError(body, original) == ApiError(GroupOr(body, "<error>", "</error>", "Unknown"), NoMessage)
  {
    AbsentFirstChar(NoMessage, CdataOpen);
    ReplaceNothing(NoMessage);
  }

  // ---------------------------------------------------------------------
  // `downloadInvoice`.

  /** `str_replace('/', '_', $invoiceNumber)`. */
  function SafeFileName(number: string): string
  {
    ReplaceChar(number, '/', '_')
  }

  /** The file name has no `/`, and differs from the number only where the number had one. */
  lemma SafeFileNameSpec(number: string)
    ensures |SafeFileName(number)| == |number|
    ensures forall i :: 0 <= i < |number| ==> SafeFileName(number)[i] != '/'
    ensures forall i :: 0 <= i < |number| && number[i] != '/' ==> SafeFileName(number)[i] == number[i]
    ensures SafeFileName(SafeFileName(number)) == SafeFileName(number)
  {
    var once := SafeFileName(number);
    assert SafeFileName(once) == once;
  }

  /** `$response->successful()`: a 2xx status. */
  predicate Successful(status: nat)
  {
    200 <= status < 300
  }

  /**
   * `downloadInvoice($url, $invoiceNumber)`: the path the PDF is written to,
   * under the resolved storage directory, or what the download throws.
   */
  function DownloadInvoice(url: string, number: string, storageDir: string, fetch: string -> Result<nat, Throwable>): (r: Result<string, Throwable>)
    ensures r.Ok? <==> fetch(url).Ok? && Successful(fetch(url).value)
  {
    var name := SafeFileName(number);
    match fetch(url)
    case Err(e) => Err(e)
    case Ok(status) =>
      if Successful(status) then Ok(storageDir + "/" + name + ".pdf")
      else Err(Exception("Failed to download invoice PDF: HTTP " + NatToString(status)))
  }

  /**
   * The PDF lands directly in the storage directory, named after the
   * invoice number with a `.pdf` extension; an unsuccessful status is
   * reported in the exception.
   */
  lemma DownloadPath(url: string, number: string, storageDir: string, fetch: string -> Result<nat, Throwable>)
    ensures var r := DownloadInvoice(url, number, storageDir, fetch);
      r.Ok? ==>
        && |r.value| == |storageDir| + 1 + |number| + 4
        && r.value[..|storageDir| + 1] == storageDir + "/"
        && (forall i :: |storageDir| + 1 <= i < |storageDir| + 1 + |number| ==> r.value[i] != '/')
        && r.value[|storageDir| + 1 + |number|..] == ".pdf"
    ensures fetch(url).Ok? && !Successful(fetch(url).value) ==>
      DownloadInvoice(url, number, storageDir, fetch) == Err(Exception("Failed to download invoice PDF: HTTP " + NatToString(fetch(url).value)))
  {
    var r := DownloadInvoice(url, number, storageDir, fetch);
    if r.Ok? {
      var name := SafeFileName(number);
      SafeFileNameSpec(number);
      assert r.value == storageDir + "/" + name + ".pdf";
      forall i | |storageDir| + 1 <= i < |storageDir| + 1 + |number|
        ensures r.value[i] != '/'
      {
        assert r.value[i] == name[i - |storageDir| - 1];
      }
    }
  }

  // ---------------------------------------------------------------------
  // `processSuccessfulResponse`.

  /** `$x ?? null`. */
  function OrNull(o: Option<Value>): Datum
  {
    match o
    case Some(v) => Val(v)
    case None => Null
  }

  /** PHP truthiness of `$downloadUrl`: `null`, `""`, `"0"` and the empty array are false. */
  predicate Truthy(o: Option<Value>)
  {
    match o
    case None => false
    case Some(Leaf(s)) => s != "" && s != "0"
    case Some(Map(es)) => es != []
    case Some(List(xs)) => xs != []
  }

  const CreationFailed: seq<(string, Datum)> := [("error", Int(500)), ("error_message", Val(Leaf("Invoice creation failed")))]
  const DownloadFailed: seq<(string, Datum)> := [("error", Int(500)), ("error_message", Val(Leaf("Invoice download failed")))]

  /**
   * What one branch settles before the download: the four returned fields,
   * the download URL and the file name handed to `downloadInvoice`.
   */
  datatype Draft = Draft(fields: seq<(string, Datum)>, url: Option<Value>, name: Value)

  /** `getInvoceNumberFromProforma` inside its `try`: an `Exception` falls back to the techid, anything else escapes. */
  function NumberOrTechid(looked: Result<string, Throwable>, techid: string): (r: Result<string, Throwable>)
    ensures r.Err? ==> looked.Err? && !looked.error.Exception? && r.error == looked.error
  {
    match looked
    case Ok(number) => Ok(number)
    case Err(e) => if e.Exception? then Ok(techid) else Err(e)
  }

  /**
   * The branch `processSuccessfulResponse` takes: nothing when neither
   * techid is set, the proforma branch whenever its techid is set, the
   * invoice branch otherwise. A proforma techid that is not a string cannot
   * be passed to the lookup's `string` parameter.
   */
  function Settle(parsed: Value, lookup: string -> Result<string, Throwable>): Result<Option<Draft>, Throwable>
  {
    var proformaId, invoiceId := Get2(parsed, "proforma_invoice", "techid"), Get2(parsed, "invoice", "techid");
    if proformaId.Some? then ProformaDraft(parsed, proformaId.value, lookup)
    else if invoiceId.Some? then Ok(Some(InvoiceDraft(parsed, invoiceId.value)))
    else Ok(None)
  }

  /** The proforma branch, for the techid found. */
  function ProformaDraft(parsed: Value, techid: Value, lookup: string -> Result<string, Throwable>): Result<Option<Draft>, Throwable>
  {
    if !techid.Leaf? then Err(TypeError)
    else
      match NumberOrTechid(lookup(techid.text), techid.text)
      case Err(e) => Err(e)
      case Ok(number) =>
        var url := Get2(parsed, "proforma_invoice", "PrintUrl");
        var fields := [("techid", Val(techid)), ("invoice_number", Val(Leaf(number))),
                       ("invoice_url", OrNull(url)), ("table_id", OrNull(Get2(parsed, "proforma_invoice", "TABLE_ID")))];
        Ok(Some(Draft(fields, url, Leaf(SafeFileName(number)))))
  }

  /** The invoice branch, for the techid found. */
  function InvoiceDraft(parsed: Value, techid: Value): Draft
  {
    var serial := Get2(parsed, "invoice", "Sorszam");
    var number := if serial.Some? then serial.value else techid;
    var url := Get2(parsed, "invoice", "PrintUrl");
    var fields := [("techid", Val(techid)), ("invoice_number", Val(number)),
                   ("invoice_url", OrNull(url)), ("table_id", OrNull(Get2(parsed, "invoice", "TABLE_ID")))];
    Draft(fields, url, number)
  }

  /** The four fields of either branch leave room for the download-failure annotation. */
  lemma SettledKeys(parsed: Value, lookup: string -> Result<string, Throwable>)
    requires Settle(parsed, lookup).Ok? && Settle(parsed, lookup).value.Some?
    ensures var d := Settle(parsed, lookup).value.value;
      |d.fields| == 4 && d.fields[0].0 == "techid"
      && Lookup(d.fields, "error").None? && Lookup(d.fields, "error_message").None?
  {
  }

  /**
   * The download step: tried only for a truthy URL; both arguments must be
   * strings; an `Exception` from it adds the failure annotation.
   */
  function AfterDownload(d: Draft, storageDir: string, fetch: string -> Result<nat, Throwable>): Result<seq<(string, Datum)>, Throwable>
  {
    if !Truthy(d.url) then Ok(d.fields)
    else if !d.url.value.Leaf? || !d.name.Leaf? then Err(TypeError)
    else
      match DownloadInvoice(d.url.value.text, d.name.text, storageDir, fetch)
      case Ok(_) => Ok(d.fields)
      case Err(e) => if e.Exception? then Ok(d.fields + DownloadFailed) else Err(e)
  }

  /** `processSuccessfulResponse($parsed)`: the array it returns, or what escapes it. */
  function ResponseData(parsed: Value, lookup: string -> Result<string, Throwable>, storageDir: string, fetch: string -> Result<nat, Throwable>): Result<seq<(string, Datum)>, Throwable>
  {
    match Settle(parsed, lookup)
    case Err(e) => Err(e)
    case Ok(None) => Ok(CreationFailed)
    case Ok(Some(d)) => AfterDownload(d, storageDir, fetch)
  }

  /** The techid of the branch taken, if any. */
  function ChosenTechid(parsed: Value): Option<Value>
  {
    var proformaId := Get2(parsed, "proforma_invoice", "techid");
    if proformaId.Some? then proformaId else Get2(parsed, "invoice", "techid")
  }

  /** The `PrintUrl` of the branch taken. */
  function ChosenUrl(parsed: Value): Option<Value>
  {
    if Get2(parsed, "proforma_invoice", "techid").Some? then Get2(parsed, "proforma_invoice", "PrintUrl")
    else Get2(parsed, "invoice", "PrintUrl")
  }

  /** The download step keeps the four fields and adds the annotation exactly when a tried download threw an `Exception`. */
  lemma AfterDownloadSpec(d: Draft, storageDir: string, fetch: string -> Result<nat, Throwable>)
    ensures var r := AfterDownload(d, storageDir, fetch);
      && (r.Err? ==> !r.error.Exception?)
      && (r.Ok? ==> r.value == d.fields || r.value == d.fields + DownloadFailed)
      && (!Truthy(d.url) ==> r == Ok(d.fields))
      && (r == Ok(d.fields + DownloadFailed) <==>
            Truthy(d.url) && d.url.value.Leaf? && d.name.Leaf?
            && DownloadInvoice(d.url.value.text, d.name.text, storageDir, fetch).Err?
            && DownloadInvoice(d.url.value.text, d.name.text, storageDir, fetch).error.Exception?)
  {
    var r := AfterDownload(d, storageDir, fetch);
    assert |d.fields + DownloadFailed| != |d.fields|;
  }

  /**
   * Neither techid set: exactly the creation-failure array, and nothing
   * else gives it.
   */
  lemma CreationFailedExactly(parsed: Value, lookup: string -> Result<string, Throwable>, storageDir: string, fetch: string -> Result<nat, Throwable>)
    ensures ResponseData(parsed, lookup, storageDir, fetch) == Ok(CreationFailed) <==> ChosenTechid(parsed).None?
  {
    match Settle(parsed, lookup)
    case Err(_) =>
    case Ok(None) =>
    case Ok(Some(d)) =>
      AfterDownloadSpec(d, storageDir, fetch);
      assert d.fields[0].0 == "techid";
      var r := AfterDownload(d, storageDir, fetch);
      if r.Ok? {
        assert r.value[0] == d.fields[0];
      }
  }

  /** Only `TypeError`s and other `Error`s escape; every `Exception` is handled inside. */
  lemma ResponseNeverThrowsException(parsed: Value, lookup: string -> Result<string, Throwable>, storageDir: string, fetch: string -> Result<nat, Throwable>)
    ensures ResponseData(parsed, lookup, storageDir, fetch).Err? ==> !ResponseData(parsed, lookup, storageDir, fetch).error.Exception?
  {
    var s := Settle(parsed, lookup);
    if s.Ok? && s.value.Some? {
      AfterDownloadSpec(s.value.value, storageDir, fetch);
    }
  }

  /**
   * The proforma branch wins whenever its techid is set: the techid is
   * reported, the invoice number is the lookup's answer or, when the lookup
   * throws an `Exception`, the techid, and URL and table id default to `null`.
   */
  lemma ProformaFields(parsed: Value, lookup: string -> Result<string, Throwable>, storageDir: string, fetch: string -> Result<nat, Throwable>, techid: string)
    requires Get2(parsed, "proforma_invoice", "techid") == Some(Leaf(techid))
    requires lookup(techid).Ok? || lookup(techid).error.Exception?
    ensures Settle(parsed, lookup).Ok? && Settle(parsed, lookup).value.Some?
    ensures var d := Settle(parsed, lookup).value.value;
      && d.fields == [("techid", Val(Leaf(techid))),
                      ("invoice_number", Val(Leaf(if lookup(techid).Ok? then lookup(techid).value else techid))),
                      ("invoice_url", OrNull(Get2(parsed, "proforma_invoice", "PrintUrl"))),
                      ("table_id", OrNull(Get2(parsed, "proforma_invoice", "TABLE_ID")))]
      && d.url == ChosenUrl(parsed)
  {
  }

  /**
   * Without a proforma techid, the invoice branch: the invoice number is
   * `Sorszam`, or the techid when that is missing.
   */
  lemma InvoiceFields(parsed: Value, lookup: string -> Result<string, Throwable>, techid: Value)
    requires Get2(parsed, "proforma_invoice", "techid").None?
    requires Get2(parsed, "invoice", "techid") == Some(techid)
    ensures Settle(parsed, lookup).Ok? && Settle(parsed, lookup).value.Some?
    ensures var d := Settle(parsed, lookup).value.value;
      var serial := Get2(parsed, "invoice", "Sorszam");
      && d.fields == [("techid", Val(techid)),
                      ("invoice_number", Val(if serial.Some? then serial.value else techid)),
                      ("invoice_url", OrNull(Get2(parsed, "invoice", "PrintUrl"))),
                      ("table_id", OrNull(Get2(parsed, "invoice", "TABLE_ID")))]
      && d.url == ChosenUrl(parsed)
  {
  }

  /** Without a truthy `PrintUrl` nothing is downloaded: the outcome does not depend on the download at all. */
  lemma NoUrlNoDownload(parsed: Value, lookup: string -> Result<string, Throwable>, storageDir: string,
                        fetch1: string -> Result<nat, Throwable>, fetch2: string -> Result<nat, Throwable>)
    requires !Truthy(ChosenUrl(parsed))
    ensures ResponseData(parsed, lookup, storageDir, fetch1) == ResponseData(parsed, lookup, storageDir, fetch2)
  {
  }
}
