/** The CLOVA OCR parser: every page of every PDF becomes one PNG image, each
    image is sent to the OCR service, and each answer is read back as the page's
    text followed by its first table as HTML. The service, the PDF renderer and
    the environment are parameters. */
module ClovaOcr {
  import opened Wrappers
  import opened PySeq
  import opened PyText
  import opened ClovaTable

  type Bytes = seq<bv8>

  // ---------------------------------------------------------------- credentials

  const UrlMissing: string :=
    "Please set the URL for Clova OCR in the environment variable CLOVA_URL or directly set it on the config YAML file."
  const KeyMissing: string :=
    "Please set the API key for Clova OCR in the environment variable CLOVA_API_KEY or directly set it on the config YAML file."

  /** `os.getenv(name, None) if explicit is None else explicit`. */
  function Setting(explicit: Option<string>, env: map<string, string>, name: string): (r: Option<string>)
    ensures explicit.Some? ==> r == explicit
    ensures explicit.None? ==> (r.Some? <==> name in env) && (name in env ==> r.value == env[name])
  {
    if explicit.Some? then explicit else if name in env then Some(env[name]) else None
  }

  /** The URL and the API key: each given value overrides its environment variable; a
      missing URL is reported before a missing key, both as KeyError. */
  function Credentials(url: Option<string>, apiKey: Option<string>, env: map<string, string>): (r: Result<(string, string)>)
    ensures r.Ok? <==> Setting(url, env, "CLOVA_URL").Some? && Setting(apiKey, env, "CLOVA_API_KEY").Some?
    ensures Setting(url, env, "CLOVA_URL").None? ==> r == Err(KeyError(UrlMissing))
    ensures Setting(url, env, "CLOVA_URL").Some? && Setting(apiKey, env, "CLOVA_API_KEY").None? ==> r == Err(KeyError(KeyMissing))
    ensures r.Ok? ==> r.value == (Setting(url, env, "CLOVA_URL").value, Setting(apiKey, env, "CLOVA_API_KEY").value)
  {
    var u := Setting(url, env, "CLOVA_URL");
    if u.None? then Err(KeyError(UrlMissing))
    else
      var k := Setting(apiKey, env, "CLOVA_API_KEY");
      if k.None? then Err(KeyError(KeyMissing)) else Ok((u.value, k.value))
  }

  /** A given URL and key are used whatever the environment holds. */
  lemma ExplicitCredentialsWin(url: string, apiKey: string, env: map<string, string>)
    ensures Credentials(Some(url), Some(apiKey), env) == Ok((url, apiKey))
  {
  }

  // ---------------------------------------------------------------- pages

  /** The name of page `k` (counting from 1) of the PDF called `pdfName`. */
  function PageName(pdfName: string, k: nat): string {
    pdfName + "_" + NatToString(k) + ".png"
  }

  /** The names of the `n` pages of the PDF called `pdfName`, in page order. */
  function PageNames(pdfName: string, n: nat): (r: seq<string>)
    ensures |r| == n && forall i :: 0 <= i < n ==> r[i] == PageName(pdfName, i + 1)
  {
    seq(n, i requires 0 <= i < n => PageName(pdfName, i + 1))
  }

  /** One more page adds its name at the end. */
  lemma PageNamesSnoc(pdfName: string, n: nat)
    ensures PageNames(pdfName, n + 1) == PageNames(pdfName, n) + [PageName(pdfName, n + 1)]
  {
    var longer, shorter := PageNames(pdfName, n + 1), PageNames(pdfName, n);
    assert forall i :: 0 <= i < n ==> longer[i] == shorter[i];
  }

  /** `pdf_to_images(path)`, given the PNG rendering of each page of the opened document:
      the images in page order and one name per page after the path's last segment. */
  method PdfToImages(pdfPath: string, pages: seq<Bytes>) returns (images: seq<Bytes>, names: seq<string>)
    ensures images == pages
    ensures names == PageNames(LastSegment(pdfPath), |pages|)
  {
    var pdfName := LastSegment(pdfPath);
    images, names := [], [];
    for pageNum := 0 to |pages|
      invariant images == pages[..pageNum]
      invariant names == PageNames(pdfName, pageNum)
    {
      images := images + [pages[pageNum]];
      PageNamesSnoc(pdfName, pageNum);
      names := names + [PageName(pdfName, pageNum + 1)];
    }
    assert pages[..|pages|] == pages;
  }

  /** Different pages of one PDF get different names. */
  lemma PageNamesDistinct(pdfName: string, i: nat, j: nat)
    requires i != j
    ensures PageName(pdfName, i) != PageName(pdfName, j)
  {
    var a, b := NatToString(i), NatToString(j);
    if PageName(pdfName, i) == PageName(pdfName, j) {
      var p := pdfName + "_";
      assert PageName(pdfName, i) == p + (a + ".png");
      assert PageName(pdfName, j) == p + (b + ".png");
      assert a + ".png" == b + ".png" by {
        assert (p + (a + ".png"))[|p|..] == a + ".png";
        assert (p + (b + ".png"))[|p|..] == b + ".png";
      }
      assert |a| == |b|;
      assert a == (a + ".png")[..|a|];
      assert b == (b + ".png")[..|b|];
      NatToStringInjective(i, j);
      assert false;
    }
  }

  /** A page name keeps no directory part. */
  lemma PageNameIsBasename(pdfPath: string, k: nat)
    ensures '/' !in PageName(LastSegment(pdfPath), k)
  {
    var digits := NatToString(k);
    assert forall c :: c in digits ==> '0' <= c <= '9' by {
      forall c | c in digits ensures '0' <= c <= '9' {
        var x :| 0 <= x < |digits| && digits[x] == c;
      }
    }
    NotInConcat('/', LastSegment(pdfPath), "_");
    NotInConcat('/', LastSegment(pdfPath) + "_", digits);
    NotInConcat('/', LastSegment(pdfPath) + "_" + digits, ".png");
  }

  // ---------------------------------------------------------------- text fields

  /** A recognised text field: its text, and whether a line break follows it. */
  datatype Field = Field(inferText: string, lineBreak: bool)

  function Separator(f: Field): string {
    if f.lineBreak then "\n" else " "
  }

  /** The text the field loop has accumulated after the given fields. */
  function FieldsText(fields: seq<Field>): string {
    if fields == [] then "" else FieldsText(fields[..|fields| - 1]) + fields[|fields| - 1].inferText + Separator(fields[|fields| - 1])
  }

  /** `extract_text_from_fields(fields)`: each field's text followed by a newline or a space,
      with the outer whitespace stripped. */
  method ExtractTextFromFields(fields: seq<Field>) returns (text: string)
    ensures text == Strip(FieldsText(fields))
    ensures fields == [] ==> text == ""
  {
    text := "";
    for i := 0 to |fields|
      invariant text == FieldsText(fields[..i])
    {
      assert fields[..i + 1][..i] == fields[..i];
      text := text + fields[i].inferText;
      if fields[i].lineBreak {
        text := text + "\n";
      } else {
        text := text + " ";
      }
    }
    assert fields[..|fields|] == fields;
    text := Strip(text);
  }

  /** The accumulated text is the fields' texts, each with its separator, one after the other. */
  lemma {:induction false} FieldsTextIsChain(fields: seq<Field>)
    ensures FieldsText(fields) == Flatten(seq(|fields|, i requires 0 <= i < |fields| => fields[i].inferText + Separator(fields[i])))
  {
    if fields != [] {
      var init := fields[..|fields| - 1];
      var last := fields[|fields| - 1];
      FieldsTextIsChain(init);
      var parts := seq(|fields|, i requires 0 <= i < |fields| => fields[i].inferText + Separator(fields[i]));
      var initParts := seq(|init|, i requires 0 <= i < |init| => init[i].inferText + Separator(init[i]));
      assert parts == initParts + [last.inferText + Separator(last)];
      FlattenAppend(initParts, last.inferText + Separator(last));
    }
  }

  lemma {:induction false} FlattenAppend(xss: seq<string>, x: string)
    ensures Flatten(xss + [x]) == Flatten(xss) + x
  {
    if xss == [] {
      assert Flatten([x]) == x + Flatten([]);
    } else {
      assert (xss + [x])[1..] == xss[1..] + [x];
      FlattenAppend(xss[1..], x);
    }
  }

  /** One field whose text has no outer whitespace reads back as that text. */
  lemma SingleFieldText(f: Field)
    requires f.inferText != [] && !IsSpace(f.inferText[0]) && !IsSpace(f.inferText[|f.inferText| - 1])
    ensures Strip(FieldsText([f])) == f.inferText
  {
    assert FieldsText([f]) == f.inferText + Separator(f);
    assert IsBlank(Separator(f));
    StripTrailingBlank(f.inferText, Separator(f));
  }

  // ---------------------------------------------------------------- the service

  /** The JSON body posted for one image, with the `X-OCR-SECRET` header's key. The image
      travels base64-encoded; the model keeps its bytes. */
  datatype Request = Request(secret: string, version: string, requestId: string, timestamp: int,
                             format: string, name: string, data: Bytes, enableTableDetection: bool)

  datatype TableJson = TableJson(cells: Option<seq<Cell>>)
  datatype ImageJson = ImageJson(tables: Option<seq<TableJson>>, fields: Option<seq<Field>>)

  /** The decoded JSON answer; a key the answer lacks is None. */
  datatype Response = Response(images: Option<seq<ImageJson>>, detail: Option<string>)

  /** The OCR service: the answer to a request posted to a URL. */
  type Service = (string, Request) -> Response

  function OcrRequest(imageData: Bytes, apiKey: string, tableDetection: bool): Request {
    Request(apiKey, "V2", "sample_id", 0, "png", "sample_image", imageData, tableDetection)
  }

  const TableMarker: string := "\n\ntable html:\n"

  /** Reading one answer: RuntimeError (or KeyError without a `detail`) when it has no
      `images`; IndexError or KeyError when the first image, its first table or the keys
      read are missing; otherwise the page text, the table HTML appended when non-empty,
      and the image name. */
  function ReadResponse(resp: Response, imageName: string): (r: Result<(string, string)>)
    ensures resp.images.None? ==>
              r == if resp.detail.Some? then Err(RuntimeError("Invalid response from Clova API: " + resp.detail.value))
                   else Err(KeyError("detail"))
    ensures r.Ok? ==> r.value.1 == imageName
  {
    if resp.images.None? then
      if resp.detail.Some? then Err(RuntimeError("Invalid response from Clova API: " + resp.detail.value))
      else Err(KeyError("detail"))
    else if resp.images.value == [] then Err(IndexError(0))
    else
      var image := resp.images.value[0];
      if image.tables.None? then Err(KeyError("tables"))
      else if image.tables.value == [] then Err(IndexError(0))
      else if image.tables.value[0].cells.None? then Err(KeyError("cells"))
      else
        var tableHtml :- TableHtml(image.tables.value[0].cells.value);
        if image.fields.None? then Err(KeyError("fields"))
        else
          var pageText := Strip(FieldsText(image.fields.value));
          if tableHtml != "" then Ok((pageText + TableMarker + tableHtml, imageName)) else Ok((pageText, imageName))
  }

  /** The table HTML is never empty, so every page read successfully carries its text, the
      marker and the first table's HTML. */
  lemma TableAlwaysAppended(resp: Response, imageName: string)
    requires ReadResponse(resp, imageName).Ok?
    ensures resp.images.Some? && resp.images.value != []
    ensures var image := resp.images.value[0];
            image.tables.Some? && image.tables.value != [] && image.tables.value[0].cells.Some?
            && image.fields.Some?
            && TableHtml(image.tables.value[0].cells.value).Ok?
            && ReadResponse(resp, imageName).value.0
                 == Strip(FieldsText(image.fields.value)) + TableMarker + TableHtml(image.tables.value[0].cells.value).value
  {
  }

  /** `clova_ocr_pure`: post one image and read the answer. */
  function ClovaOcrPure(imageData: Bytes, imageName: string, url: string, apiKey: string, tableDetection: bool,
                        service: Service): (r: Result<(string, string)>)
    ensures r.Ok? ==> r.value.1 == imageName
  {
    ReadResponse(service(url, OcrRequest(imageData, apiKey, tableDetection)), imageName)
  }

  // ---------------------------------------------------------------- the parser

  /** The PDF renderer: the PNG image of each page of the file at a path. */
  type Renderer = string -> Result<seq<Bytes>>

  /** The names of all pages, file after file. */
  function AllPageNames(paths: seq<string>, docs: seq<seq<Bytes>>): seq<string>
    requires |docs| == |paths|
  {
    Flatten(seq(|paths|, i requires 0 <= i < |paths| => PageNames(LastSegment(paths[i]), |docs[i]|)))
  }

  /** `clova_ocr(paths, url, api_key, batch, table_detection)`: credentials first, then every
      file rendered (the first failure wins; no files is a ValueError when the pairs are
      unpacked), then one OCR call per page, in file order and page order, then the texts
      and names unpacked (ValueError when there were no pages at all). */
  function ClovaOcrParse(paths: seq<string>, url: Option<string>, apiKey: Option<string>, env: map<string, string>,
                         tableDetection: bool, render: Renderer, service: Service): (r: Result<(seq<string>, seq<string>)>)
    ensures Credentials(url, apiKey, env).Err? ==> r == Err(Credentials(url, apiKey, env).error)
    ensures r.Ok? ==> |r.value.0| == |r.value.1| > 0
  {
    var creds :- Credentials(url, apiKey, env);
    var docs :- MapResults(paths, render);
    if paths == [] then Err(ValueError("not enough values to unpack (expected 2, got 0)"))
    else
      var images := Flatten(docs);
      var names := AllPageNames(paths, docs);
      var results :- MapResults(Zip(images, names),
                                (t: (Bytes, string)) => ClovaOcrPure(t.0, t.1, creds.0, creds.1, tableDetection, service));
      if results == [] then Err(ValueError("not enough values to unpack (expected 2, got 0)"))
      else Ok((seq(|results|, i requires 0 <= i < |results| => results[i].0),
               seq(|results|, i requires 0 <= i < |results| => results[i].1)))
  }

  /** A successful parse returns one text per page of every file, each under its own page
      name, file after file and page after page; each text is what the service answered for
      that page's image. */
  lemma ParseKeepsPageOrder(paths: seq<string>, url: Option<string>, apiKey: Option<string>, env: map<string, string>,
                            tableDetection: bool, render: Renderer, service: Service)
    requires ClovaOcrParse(paths, url, apiKey, env, tableDetection, render, service).Ok?
    ensures var docs := MapResults(paths, render);
            var creds := Credentials(url, apiKey, env);
            var out := ClovaOcrParse(paths, url, apiKey, env, tableDetection, render, service).value;
            creds.Ok? && docs.Ok? && |docs.value| == |paths|
            && out.1 == AllPageNames(paths, docs.value)
            && |out.0| == |Flatten(docs.value)|
            && forall i :: 0 <= i < |out.0| ==>
                 ClovaOcrPure(Flatten(docs.value)[i], out.1[i], creds.value.0, creds.value.1, tableDetection, service)
                   == Ok((out.0[i], out.1[i]))
  {
    var creds := Credentials(url, apiKey, env).value;
    var docs := MapResults(paths, render).value;
    var images := Flatten(docs);
    var names := AllPageNames(paths, docs);
    var parts := seq(|paths|, i requires 0 <= i < |paths| => PageNames(LastSegment(paths[i]), |docs[i]|));
    FlattenSameLength(docs, parts);
    var f := (t: (Bytes, string)) => ClovaOcrPure(t.0, t.1, creds.0, creds.1, tableDetection, service);
    var results := MapResults(Zip(images, names), f).value;
    var out := ClovaOcrParse(paths, url, apiKey, env, tableDetection, render, service).value;
    assert out.1 == names by {
      assert |out.1| == |names|;
      forall i | 0 <= i < |names| ensures out.1[i] == names[i] {
        assert f(Zip(images, names)[i]) == Ok(results[i]);
      }
    }
    forall i | 0 <= i < |out.0|
      ensures ClovaOcrPure(images[i], out.1[i], creds.0, creds.1, tableDetection, service) == Ok((out.0[i], out.1[i]))
    {
      assert f(Zip(images, names)[i]) == Ok(results[i]);
    }
  }
}
