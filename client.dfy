/**
 * The `LaravelInnvoice` client: the account settings it is built with and
 * the two operations that create an invoice at the service. Each posts the
 * payload as XML, converts the answer and reports what it found; an
 * `Exception` thrown on the way is turned into a more specific one by
 * `handleApiError`, which always throws.
 *
 * The outside world is a `Services` value: the POST to the service, the
 * SimpleXML parser, the proforma number lookup, the PDF download's HTTP
 * status and Laravel's `storage_path` helper.
 */
module InnvoiceClient {
  import opened Wrappers
  import opened Assoc
  import opened XmlValue
  import opened XmlDecode
  import opened XmlEncode
  import opened InvoiceItems
  import opened ApiResponse

  const ApiBase: string := "https://api.innvoice.hu/"

  function InvoiceEndpoint(company: string): string
  {
    ApiBase + company + "/invoice"
  }

  function ProformaEndpoint(company: string): string
  {
    ApiBase + company + "/proforma_invoice"
  }

  datatype Services = Services(
    post: (string, string) -> Result<string, Throwable>,   // endpoint, XML body -> response body
    parse: string -> Option<Element>,                       // `simplexml_load_string`
    lookup: string -> Result<string, Throwable>,            // `getInvoceNumberFromProforma`
    fetch: string -> Result<nat, Throwable>,                // status of `Http::get($url)`
    storagePath: string -> string)                          // Laravel's `storage_path`

  /** What the returned array is, or what escapes. */
  type Outcome = Result<seq<(string, Datum)>, Throwable>

  /** The `try` block of both create operations: parse, check for an API error, build the result. */
  function Tried(body: string, s: Services, storageDir: string): Outcome
  {
    match ParseXmlToArray(body, s.parse)
    case Err(e) => Err(e)
    case Ok(parsed) =>
      match CheckForApiErrors(parsed)
      case Some(e) => Err(e)
      case None => ResponseData(parsed, s.lookup, storageDir, s.fetch)
  }

  /** The `try` block with its `catch (Exception $e)`, which hands the exception to `handleApiError`. */
  function Attempt(body: string, s: Services, storageDir: string): Outcome
  {
    match Tried(body, s, storageDir)
    case Ok(r) => Ok(r)
    case Err(e) => if e.Exception? then Err(HandleApiError(body, e.message)) else Err(e)
  }

  /** `createInvoice($data, $tetelek)`. */
  function CreateInvoiceOutcome(company: string, storageDir: string, data: Value, items: seq<LineItem>, s: Services): Outcome
    requires !data.Leaf?
  {
    match AddItems(data, items)
    case Err(e) => Err(e)
    case Ok(full) =>
      match s.post(InvoiceEndpoint(company), Encode(full))
      case Err(e) => Err(e)
      case Ok(body) => Attempt(body, s, storageDir)
  }

  /** `createInvoiceFromProforma($data)`. */
  function CreateFromProformaOutcome(company: string, storageDir: string, data: Value, s: Services): Outcome
    requires !data.Leaf?
  {
    match s.post(ProformaEndpoint(company), Encode(data))
    case Err(e) => Err(e)
    case Ok(body) => Attempt(body, s, storageDir)
  }

  class LaravelInnvoice {
    var username: string
    var password: string
    var companyName: string
    var checkbookId: string
    var storagePath: string

    /** The settings come from the `innvoice` configuration. */
    constructor(username: string, password: string, companyName: string, checkbookId: string, storagePath: string)
      ensures this.username == username && this.password == password && this.companyName == companyName
      ensures this.checkbookId == checkbookId && this.storagePath == storagePath
    {
      this.username := username;
      this.password := password;
      this.companyName := companyName;
      this.checkbookId := checkbookId;
      this.storagePath := storagePath;
    }

    /** `createInvoice`: add the items, post the XML, read the answer. */
    method CreateInvoice(data: Value, items: seq<LineItem>, s: Services) returns (r: Outcome)
      requires !data.Leaf?
      ensures r == CreateInvoiceOutcome(companyName, s.storagePath(storagePath), data, items, s)
    {
      var full := AddItemsToInvoice(data, items);
      if full.Err? {
        return Err(full.error);
      }
      var xml := BuildXmlFromArray(full.value);
      var sent := s.post(InvoiceEndpoint(companyName), xml);
      if sent.Err? {
        return Err(sent.error);
      }
      r := Respond(sent.value, s);
    }

    /** `createInvoiceFromProforma`: post the XML as it is, read the answer. */
    method CreateInvoiceFromProforma(data: Value, s: Services) returns (r: Outcome)
      requires !data.Leaf?
      ensures r == CreateFromProformaOutcome(companyName, s.storagePath(storagePath), data, s)
    {
      var xml := BuildXmlFromArray(data);
      var sent := s.post(ProformaEndpoint(companyName), xml);
      if sent.Err? {
        return Err(sent.error);
      }
      r := Respond(sent.value, s);
    }

    /** The `try`/`catch` both create operations share. */
    method Respond(body: string, s: Services) returns (r: Outcome)
      ensures r == Attempt(body, s, s.storagePath(storagePath))
    {
      var failure: Throwable;
      var parsed := ParseXmlToArray(body, s.parse);
      if parsed.Err? {
        failure := parsed.error;
      } else {
        var apiError := CheckForApiErrors(parsed.value);
        if apiError.Some? {
          failure := apiError.value;
        } else {
          var data := ProcessSuccessfulResponse(parsed.value, s);
          if data.Ok? {
            return data;
          }
          failure := data.error;
        }
      }
      if failure.Exception? {
        return Err(HandleApiError(body, failure.message));
      }
      return Err(failure);
    }

    /**
     * `processSuccessfulResponse`: `$returnData` filled field by field, by
     * the branch taken and then by the download step.
     */
    method ProcessSuccessfulResponse(parsed: Value, s: Services) returns (r: Outcome)
      ensures r == ResponseData(parsed, s.lookup, s.storagePath(storagePath), s.fetch)
    {
      var settled := FillFields(parsed, s);
      if settled.Err? {
        return Err(settled.error);
      }
      if settled.value.None? {
        var returnData := PutField([], "error", Int(500));
        returnData := PutField(returnData, "error_message", Val(Leaf("Invoice creation failed")));
        assert returnData == CreationFailed;
        return Ok(returnData);
      }
      SettledKeys(parsed, s.lookup);
      r := TryDownload(settled.value.value, s);
    }

    /**
     * The first part of `processSuccessfulResponse`: the four fields of the
     * branch taken, with the URL and file name for the download, or nothing
     * when neither techid is set.
     */
    method FillFields(parsed: Value, s: Services) returns (r: Result<Option<Draft>, Throwable>)
      ensures r == Settle(parsed, s.lookup)
    {
      var proformaId := Get2(parsed, "proforma_invoice", "techid");
      var invoiceId := Get2(parsed, "invoice", "techid");
      if !(invoiceId.Some? || proformaId.Some?) {
        return Ok(None);
      }
      if proformaId.Some? {
        r := FillProforma(parsed, proformaId.value, s);
      } else {
        var d := FillInvoice(parsed, invoiceId.value);
        r := Ok(Some(d));
      }
    }

    /** The proforma branch: the number comes from the lookup, or is the techid when the lookup throws an `Exception`. */
    method FillProforma(parsed: Value, techid: Value, s: Services) returns (r: Result<Option<Draft>, Throwable>)
      ensures r == ProformaDraft(parsed, techid, s.lookup)
    {
      var returnData := PutField([], "techid", Val(techid));
      if !techid.Leaf? {
        return Err(TypeError);
      }
      var invoiceNumber: string;
      var looked := s.lookup(techid.text);
      if looked.Ok? {
        invoiceNumber := looked.value;
      } else if looked.error.Exception? {
        invoiceNumber := techid.text;
      } else {
        return Err(looked.error);
      }
      returnData := PutField(returnData, "invoice_number", Val(Leaf(invoiceNumber)));
      returnData := PutField(returnData, "invoice_url", OrNull(Get2(parsed, "proforma_invoice", "PrintUrl")));
      returnData := PutField(returnData, "table_id", OrNull(Get2(parsed, "proforma_invoice", "TABLE_ID")));
      assert returnData == [("techid", Val(techid)), ("invoice_number", Val(Leaf(invoiceNumber))),
                            ("invoice_url", OrNull(Get2(parsed, "proforma_invoice", "PrintUrl"))),
                            ("table_id", OrNull(Get2(parsed, "proforma_invoice", "TABLE_ID")))];
      var downloadUrl := Get2(parsed, "proforma_invoice", "PrintUrl");
      var downloadFileName := SafeFileName(invoiceNumber);
      return Ok(Some(Draft(returnData, downloadUrl, Leaf(downloadFileName))));
    }

    /** The invoice branch: the number is `Sorszam`, or the techid. */
    method FillInvoice(parsed: Value, techid: Value) returns (d: Draft)
      ensures d == InvoiceDraft(parsed, techid)
    {
      var serial := Get2(parsed, "invoice", "Sorszam");
      var returnData := PutField([], "techid", Val(techid));
      returnData := PutField(returnData, "invoice_number", Val(if serial.Some? then serial.value else techid));
      returnData := PutField(returnData, "invoice_url", OrNull(Get2(parsed, "invoice", "PrintUrl")));
      returnData := PutField(returnData, "table_id", OrNull(Get2(parsed, "invoice", "TABLE_ID")));
      assert returnData == [("techid", Val(techid)), ("invoice_number", Val(if serial.Some? then serial.value else techid)),
                            ("invoice_url", OrNull(Get2(parsed, "invoice", "PrintUrl"))),
                            ("table_id", OrNull(Get2(parsed, "invoice", "TABLE_ID")))];
      var downloadUrl := Get2(parsed, "invoice", "PrintUrl");
      var downloadFileName := if serial.Some? then serial.value else techid;
      return Draft(returnData, downloadUrl, downloadFileName);
    }

    /** The second part: `if ($downloadUrl)` and the `try` around `downloadInvoice`. */
    method TryDownload(d: Draft, s: Services) returns (r: Outcome)
      requires Lookup(d.fields, "error").None? && Lookup(d.fields, "error_message").None?
      ensures r == AfterDownload(d, s.storagePath(storagePath), s.fetch)
    {
      var returnData := d.fields;
      if Truthy(d.url) {
        if !d.url.value.Leaf? || !d.name.Leaf? {
          return Err(TypeError);
        }
        var saved := DownloadInvoice(d.url.value.text, d.name.text, s.storagePath(storagePath), s.fetch);
        if saved.Err? {
          if !saved.error.Exception? {
            return Err(saved.error);
          }
          returnData := PutField(returnData, "error", Int(500));
          returnData := PutField(returnData, "error_message", Val(Leaf("Invoice download failed")));
          assert returnData == d.fields + DownloadFailed;
        }
      }
      return Ok(returnData);
    }
  }

  /**
   * The array returned is never the empty one after the `try` block: it
   * holds the creation-failure pair, or the four fields of the branch taken.
   */
  lemma ResultNeverEmpty(body: string, s: Services, storageDir: string)
    ensures Attempt(body, s, storageDir).Ok? ==> |Attempt(body, s, storageDir).value| >= 2
  {
    var parsed := ParseXmlToArray(body, s.parse);
    if parsed.Ok? && CheckForApiErrors(parsed.value).None? {
      var settled := Settle(parsed.value, s.lookup);
      if settled.Ok? && settled.value.Some? {
        SettledKeys(parsed.value, s.lookup);
        AfterDownloadSpec(settled.value.value, storageDir, s.fetch);
      }
    }
  }

  /**
   * Every `Exception` that leaves a create operation after the service
   * answered was rewritten by `handleApiError`: its message names an API
   * error or a response that could not be read.
   */
  lemma EscapingExceptionsRewritten(body: string, s: Services, storageDir: string)
    ensures var r := Attempt(body, s, storageDir);
      r.Err? && r.error.Exception? ==>
        (|r.error.message| >= 10 && r.error.message[..10] == "API Error ")
        || r.error.message == Unreadable + Tried(body, s, storageDir).error.message
  {
  }

  /** A body the parser rejects and that holds no `<error>` tag gives the parse failure, wrapped. */
  lemma UnparsableBody(body: string, s: Services, storageDir: string)
    requires s.parse(XmlClean.CleanXmlString(body)).None?
    requires !Text.Contains(body, "<error>")
    ensures Attempt(body, s, storageDir) == Err(Exception(Unreadable + Unparsable))
  {
    assert Tried(body, s, storageDir) == Err(Exception(Unparsable));
  }

  /** An error the service reports under `response` is thrown again by `handleApiError`, read from the raw body. */
  lemma ReportedErrorRethrown(body: string, s: Services, storageDir: string)
    requires ParseXmlToArray(body, s.parse).Ok?
    requires Get2(ParseXmlToArray(body, s.parse).value, "response", "error").Some?
    ensures Attempt(body, s, storageDir) == Err(HandleApiError(body, CheckForApiErrors(ParseXmlToArray(body, s.parse).value).value.message))
  {
  }

  /**
   * The root's own tag is dropped by the conversion, so an error reported
   * directly under the root (no `response` child) goes unnoticed: with no
   * `response`, `invoice` or `proforma_invoice` child the answer is the
   * creation-failure array.
   */
  lemma {:induction false} UnrecognisedAnswer(body: string, s: Services, storageDir: string, root: Element)
    requires s.parse(XmlClean.CleanXmlString(body)) == Some(root)
    requires root.children != []
    requires forall i :: 0 <= i < |root.children| ==>
      root.children[i].name != "response" && root.children[i].name != "invoice" && root.children[i].name != "proforma_invoice"
    ensures Attempt(body, s, storageDir) == Ok(CreationFailed)
  {
    var parsed := ToValue(root);
    ChildLookup(root, "response");
    NoChildNamed(root.children, "response");
    ChildLookup(root, "invoice");
    NoChildNamed(root.children, "invoice");
    ChildLookup(root, "proforma_invoice");
    NoChildNamed(root.children, "proforma_invoice");
    assert Get2(parsed, "response", "error").None?;
    assert ChosenTechid(parsed).None?;
  }

  /** `$returnData[$key] = $v` for a key it does not hold yet. */
  function PutField(es: seq<(string, Datum)>, key: string, v: Datum): (r: seq<(string, Datum)>)
    requires Lookup(es, key).None?
    ensures r == es + [(key, v)]
  {
    PutNew(es, key, v);
    Put(es, key, v)
  }
}
