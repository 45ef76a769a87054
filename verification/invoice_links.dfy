/** Invoice link decoding and download URL reconstruction
    (`AliceInvoiceDownloader.url_template` and `_get_pdf_urls`). The HTML
    traversal that finds the links is outside the model: its result, the
    `href` of every matched "PDF" anchor in page order, is the input here. */
module InvoiceLinks {
  import opened Exceptions
  import opened PyStr
  import opened PyFormat

  /** The ten query parameters of a download URL. */
  datatype Param =
    | NumeroFattura | Anno | Mese | P1 | DataEmissione
    | DocRowId | NumPagineFattura | OffsetInizioFatt | FlgTr | EnteFattura

  /** The parameter's name, both in the URL and as the template's field. */
  function Name(p: Param): string {
    match p
    case NumeroFattura => "numero_fattura"
    case Anno => "anno"
    case Mese => "mese"
    case P1 => "p1"
    case DataEmissione => "data_emissione"
    case DocRowId => "doc_row_id"
    case NumPagineFattura => "num_pagine_fattura"
    case OffsetInizioFatt => "offset_inizio_fatt"
    case FlgTr => "flgTr"
    case EnteFattura => "ente_fattura"
  }

  /** The descriptor field `_get_pdf_urls` passes as the parameter's value. */
  function Source(p: Param): (i: nat)
    ensures 1 <= i <= 10
  {
    match p
    case NumeroFattura => 1
    case Anno => 2
    case Mese => 3
    case P1 => 9
    case DataEmissione => 4
    case DocRowId => 5
    case NumPagineFattura => 6
    case OffsetInizioFatt => 7
    case FlgTr => 8
    case EnteFattura => 10
  }

  /** The parameters in the order of the template's lines. */
  const TemplateOrder: seq<Param> :=
    [NumeroFattura, Anno, Mese, P1, DataEmissione, DocRowId, NumPagineFattura, OffsetInizioFatt, FlgTr, EnteFattura]

  const Host := "https://rechnung.dsl.o2online.de/asp/"
  const Script := "DAIW_download_PDF.asp?"

  /** The download script every reconstructed URL addresses. */
  const Endpoint := Host + Script

  /** The indentation each continued line of the template literal carries. */
  const Indent := "\t\t\t\t\t\t\t"

  /** What follows a field line: `&` unless it is the last one. */
  function Separator(following: seq<Param>): string {
    if |following| == 0 then "" else "&"
  }

  /** A field line of the template, `name={name}` and its separator. */
  function FieldLine(name: string, sep: string): string {
    name + "={" + name + "}" + sep
  }

  /** A query parameter once formatted: `name=value`. */
  function Pair(name: string, value: string): string {
    name + "=" + value
  }

  /** The field lines of the parameters as written in the source, each on
      a continued line behind its indentation. */
  function RawLines(ps: seq<Param>): string
    decreases |ps|
  {
    if |ps| == 0 then []
    else (Indent + FieldLine(Name(ps[0]), Separator(ps[1..]))) + RawLines(ps[1..])
  }

  /** The field lines of the parameters without any whitespace. */
  function Lines(ps: seq<Param>): string
    decreases |ps|
  {
    if |ps| == 0 then []
    else FieldLine(Name(ps[0]), Separator(ps[1..])) + Lines(ps[1..])
  }

  /** The `name=value` pairs of the parameters, each value taken from the
      parameter's descriptor field. */
  function Pairs(ps: seq<Param>, fields: seq<string>): (pairs: seq<string>)
    requires |fields| >= 11
    ensures |pairs| == |ps|
    ensures forall j :: 0 <= j < |ps| ==> pairs[j] == Pair(Name(ps[j]), fields[Source(ps[j])])
  {
    seq(|ps|, j requires 0 <= j < |ps| => Pair(Name(ps[j]), fields[Source(ps[j])]))
  }

  /** The query of a download URL: the pairs joined with `&`. */
  function Query(ps: seq<Param>, fields: seq<string>): string
    requires |fields| >= 11
  {
    Join(Pairs(ps, fields), '&')
  }

  /** `url_template` as written: twelve lines joined by backslash
      continuations, each continued line keeping its leading indentation. */
  const RawUrlTemplate: string := Host + (Indent + Script) + RawLines(TemplateOrder)

  /** `url_template` after `.translate(None, string.whitespace)`. */
  const UrlTemplate: string := Without(RawUrlTemplate, Whitespace)

  /** The argument list of a matched href: `link[19:-1]` with every `'` and
      then every space deleted. */
  function Arguments(href: string): string
  {
    Without(Without(Slice(href, 19, -1), {'\''}), {' '})
  }

  /** One entry of `download_data`: the argument list split on commas. */
  function Decode(href: string): (fields: seq<string>)
    ensures |fields| == Count(Arguments(href), ',') + 1
    ensures forall i :: 0 <= i < |fields| ==>
              '\'' !in fields[i] && ' ' !in fields[i] && ',' !in fields[i]
    ensures Join(fields, ',') == Arguments(href)
  {
    var fields := Split(Arguments(href), ',');
    JoinSplit(Arguments(href), ',');
    fields
  }

  /** The keyword arguments `_get_pdf_urls` passes to `format`, read off the
      positional fields of one decoded link. */
  function Keywords(fields: seq<string>): map<string, string>
    requires |fields| >= 11
  {
    NamesDistinct();
    map p | p in TemplateOrder :: Name(p) := fields[Source(p)]
  }

  /** The download URL written out directly: the endpoint followed by the
      query, values taken from the descriptor's fields 1 to 10. */
  function DirectUrl(fields: seq<string>): string
    requires |fields| >= 11
  {
    Endpoint + Query(TemplateOrder, fields)
  }

  /** The descriptor fields `format` receives, 1 to 10, are all within
      ASCII. They are unicode, as BeautifulSoup hands out attribute values,
      while the template is a byte string, so `format` converts each of them
      to `str` with the ASCII codec. */
  predicate Encodable(fields: seq<string>)
    requires |fields| >= 11
  {
    forall i :: 1 <= i <= 10 ==> Ascii(fields[i])
  }

  /** The URL for one decoded link. Evaluating `data[1]` … `data[10]` raises
      IndexError before `format` runs when there are fewer than 11 fields; a
      field that the ASCII codec cannot convert makes `format` raise
      UnicodeEncodeError; otherwise the URL is the template formatted with
      the keywords, which `TemplateUrl` shows to be the direct URL. */
  function BuildUrl(fields: seq<string>): (r: Result<string>)
    ensures r.Ok? <==> |fields| >= 11 && Encodable(fields)
    ensures r == Raised(IndexError) <==> |fields| < 11
    ensures r == Raised(UnicodeEncodeError) <==> |fields| >= 11 && !Encodable(fields)
  {
    if |fields| < 11 then Raised(IndexError)
    else if !Encodable(fields) then Raised(UnicodeEncodeError)
    else Ok(DirectUrl(fields))
  }

  /** Formatting `url_template` with the keywords of a decoded link gives
      the direct URL; the `format` call in `_get_pdf_urls` returns it exactly
      when every keyword value is within ASCII, and raises UnicodeEncodeError
      otherwise. */
  lemma TemplateUrl(fields: seq<string>)
    requires |fields| >= 11
    ensures Format(UrlTemplate, Keywords(fields)) == Ok(Endpoint + Query(TemplateOrder, fields))
    ensures Encodable(fields) <==> forall k :: k in Keywords(fields) ==> Ascii(Keywords(fields)[k])
    ensures BuildUrl(fields) ==
      if Encodable(fields) then Format(UrlTemplate, Keywords(fields)) else Raised(UnicodeEncodeError)
  {
    StrippedTemplate();
    TemplateExpansion(fields);
    EncodableKeywords(fields);
  }

  /** The fields checked by `Encodable` are exactly the keyword values. */
  lemma EncodableKeywords(fields: seq<string>)
    requires |fields| >= 11
    ensures Encodable(fields) <==> forall k :: k in Keywords(fields) ==> Ascii(Keywords(fields)[k])
  {
    var kw := Keywords(fields);
    if Encodable(fields) {
      forall k | k in kw ensures Ascii(kw[k]) {
        var p :| p in TemplateOrder && Name(p) == k;
        KeywordOf(fields, p);
      }
    }
    if forall k :: k in kw ==> Ascii(kw[k]) {
      forall i | 1 <= i <= 10 ensures Ascii(fields[i]) {
        var p := ParamOf(i);
        KeywordOf(fields, p);
      }
    }
  }

  /** `download_data`: every href decoded, in page order. */
  function DownloadData(hrefs: seq<string>): (data: seq<seq<string>>)
    ensures |data| == |hrefs|
    ensures forall i :: 0 <= i < |hrefs| ==> data[i] == Decode(hrefs[i])
  {
    seq(|hrefs|, i requires 0 <= i < |hrefs| => Decode(hrefs[i]))
  }

  /** Building the URL of `data[i]` is the first thing in the loop that
      raises, and it raises `e`. */
  predicate FailsFirstAt(data: seq<seq<string>>, i: nat, e: Exception) {
    && i < |data|
    && BuildUrl(data[i]) == Raised(e)
    && forall j :: 0 <= j < i ==> BuildUrl(data[j]).Ok?
  }

  /** The loop of `_get_pdf_urls`: one URL per decoded link, in order; the
      first link whose URL cannot be built aborts it with that exception. */
  function BuildUrls(data: seq<seq<string>>): (r: Result<seq<string>>)
    ensures r.Ok? <==> forall i :: 0 <= i < |data| ==> |data[i]| >= 11 && Encodable(data[i])
    ensures r.Ok? ==> |r.value| == |data|
    ensures r.Ok? ==> forall i :: 0 <= i < |data| ==> BuildUrl(data[i]) == Ok(r.value[i])
    ensures r.Raised? ==> exists i :: 0 <= i < |data| && FailsFirstAt(data, i, r.exc)
    decreases |data|
  {
    if |data| == 0 then Ok([])
    else
      match BuildUrl(data[0])
      case Raised(e) =>
        assert FailsFirstAt(data, 0, e);
        Raised(e)
      case Ok(first) =>
        var rest := BuildUrls(data[1..]);
        UrlsStep(data, first, rest);
        if rest.Raised? then Raised(rest.exc) else Ok([first] + rest.value)
  }

  /** One more decoded link, whose URL was built, in front of the ones
      already handled. */
  lemma UrlsStep(data: seq<seq<string>>, first: string, rest: Result<seq<string>>)
    requires |data| > 0 && BuildUrl(data[0]) == Ok(first)
    requires rest.Ok? <==> forall i :: 0 <= i < |data| - 1 ==> BuildUrl(data[1..][i]).Ok?
    requires rest.Ok? ==> |rest.value| == |data| - 1
    requires rest.Ok? ==> forall i :: 0 <= i < |data| - 1 ==> BuildUrl(data[1..][i]) == Ok(rest.value[i])
    requires rest.Raised? ==> exists i :: 0 <= i < |data| - 1 && FailsFirstAt(data[1..], i, rest.exc)
    ensures rest.Ok? <==> forall i :: 0 <= i < |data| ==> BuildUrl(data[i]).Ok?
    ensures rest.Ok? ==> forall i :: 0 <= i < |data| ==> BuildUrl(data[i]) == Ok(([first] + rest.value)[i])
    ensures rest.Raised? ==> exists i :: 0 <= i < |data| && FailsFirstAt(data, i, rest.exc)
  {
    assert forall i :: 0 < i < |data| ==> data[1..][i - 1] == data[i];
    if rest.Ok? {
      forall i | 0 <= i < |data| ensures BuildUrl(data[i]) == Ok(([first] + rest.value)[i]) {
        if i > 0 {
          assert data[i] == data[1..][i - 1];
        }
      }
    } else {
      var i :| 0 <= i < |data| - 1 && FailsFirstAt(data[1..], i, rest.exc);
      assert BuildUrl(data[i + 1]) == Raised(rest.exc);
      assert FailsFirstAt(data, i + 1, rest.exc);
    }
  }

  /** `_get_pdf_urls`, given the hrefs of the matched anchors. */
  function PdfUrls(hrefs: seq<string>): (r: Result<seq<string>>)
    ensures r.Ok? <==> forall i :: 0 <= i < |hrefs| ==> |Decode(hrefs[i])| >= 11 && Encodable(Decode(hrefs[i]))
    ensures r.Ok? ==> |r.value| == |hrefs|
    ensures r.Ok? ==> forall i :: 0 <= i < |hrefs| ==> BuildUrl(Decode(hrefs[i])) == Ok(r.value[i])
    ensures r.Raised? ==> exists i :: 0 <= i < |hrefs| && FailsFirstAt(DownloadData(hrefs), i, r.exc)
    ensures r.Raised? ==> r.exc == IndexError || r.exc == UnicodeEncodeError
  {
    BuildUrls(DownloadData(hrefs))
  }

  // ---------------------------------------------------------------------
  // Properties of decoding and of the URLs

  /** The argument list is the href without its first 19 and its last
      character, quotes and spaces deleted; an href of at most 20 characters
      has an empty one, which decodes to a single empty field. */
  lemma ArgumentsOfHref(href: string)
    ensures |href| <= 20 ==> Arguments(href) == [] && Decode(href) == [[]]
    ensures |href| > 20 ==> Arguments(href) == Without(href[19..|href| - 1], {'\'', ' '})
  {
    DropEnds(href);
    WithoutTwice(Slice(href, 19, -1), {'\''}, {' '});
    assert {'\''} + {' '} == {'\'', ' '};
    if |href| <= 20 {
      assert FirstIndex(Arguments(href), ',') == 0;
    }
  }

  /** Too few fields: a descriptor with fewer than 11 fields has no URL. */
  lemma ShortDescriptorRaises(href: string)
    requires Count(Arguments(href), ',') < 10
    ensures PdfUrls([href]) == Raised(IndexError)
  {
    assert |Decode([href][0])| < 11;
  }

  /** A descriptor with enough fields but a character beyond ASCII in one of
      fields 1 to 10 makes `_get_pdf_urls` raise UnicodeEncodeError. */
  lemma NonAsciiFieldRaises(href: string, i: nat, j: nat)
    ensures && |Decode(href)| >= 11
            && 1 <= i <= 10 && j < |Decode(href)[i]| && Decode(href)[i][j] > '\U{7F}'
            ==> PdfUrls([href]) == Raised(UnicodeEncodeError)
  {
    if |Decode(href)| >= 11 && 1 <= i <= 10 && j < |Decode(href)[i]| && Decode(href)[i][j] > '\U{7F}' {
      assert !Ascii(Decode([href][0])[i]);
    }
  }

  /** An href within ASCII never meets UnicodeEncodeError: its URL is built
      as soon as it has enough fields. */
  lemma AsciiHrefEncodes(href: string)
    requires Ascii(href)
    ensures |Decode(href)| >= 11 ==> BuildUrl(Decode(href)).Ok?
  {
    var fields := Decode(href);
    var args := Arguments(href);
    forall x | x in args ensures x <= '\U{7F}' {
      var sliced := Slice(href, 19, -1);
      assert x in Without(sliced, {'\''});
      assert x in sliced;
      var k :| 0 <= k < |sliced| && sliced[k] == x;
      assert x == href[SliceBound(19, |href|) + k];
    }
    if |fields| >= 11 {
      assert fields == Split(args, ',');
      forall i | 1 <= i <= 10 ensures Ascii(fields[i]) {
        forall j | 0 <= j < |fields[i]| ensures fields[i][j] <= '\U{7F}' {
          assert fields[i][j] in fields[i];
          assert fields[i][j] in args;
        }
      }
    }
  }

  /** Field 0 and every field after field 10 never reach the URL. */
  lemma UrlIgnoresUnusedFields(f: seq<string>, g: seq<string>)
    requires |f| >= 11 && |g| >= 11
    requires f[1..11] == g[1..11]
    ensures BuildUrl(f) == BuildUrl(g)
  {
    assert forall i :: 1 <= i < 11 ==> f[i] == f[1..11][i - 1] && g[i] == g[1..11][i - 1];
    assert Encodable(f) == Encodable(g);
    assert Pairs(TemplateOrder, f) == Pairs(TemplateOrder, g);
  }

  /** A whitespace character occurs in the URL exactly when one of the ten
      fields that go into it carries it: the template itself has none. */
  lemma UrlWhitespace(fields: seq<string>, c: char)
    requires |fields| >= 11
    requires c in Whitespace
    ensures c in DirectUrl(fields) <==> exists i :: 1 <= i <= 10 && c in fields[i]
    ensures BuildUrl(fields).Ok? ==> (c in BuildUrl(fields).value <==> exists i :: 1 <= i <= 10 && c in fields[i])
  {
    HeadPlain();
    PlainLacks(c, Host);
    PlainLacks(c, Script);
    assert c !in Endpoint;
    var pairs := Pairs(TemplateOrder, fields);
    JoinChars(pairs, '&', c);
    forall j | 0 <= j < |pairs| ensures c in pairs[j] <==> c in fields[Source(TemplateOrder[j])] {
      NameFacts(TemplateOrder[j]);
      PairWhitespace(Name(TemplateOrder[j]), fields[Source(TemplateOrder[j])], c);
    }
    if exists i :: 1 <= i <= 10 && c in fields[i] {
      var i :| 1 <= i <= 10 && c in fields[i];
      var p := ParamOf(i);
      var j :| 0 <= j < |TemplateOrder| && TemplateOrder[j] == p;
      assert c in pairs[j];
    }
  }

  /** A pair holds a whitespace character only through its value. */
  lemma PairWhitespace(name: string, value: string, c: char)
    requires c in Whitespace && Plain(name)
    ensures c in Pair(name, value) <==> c in value
  {
    PlainLacks(c, name);
    assert c != '=';
  }

  lemma PlainLacks(c: char, text: string)
    requires c in Whitespace && Plain(text)
    ensures c !in text
  {
    assert forall i :: 0 <= i < |text| ==> text[i] != c;
  }

  /** The URL of a decoded link never contains a space: decoding deleted them
      all and the template has none. */
  lemma DecodedUrlHasNoSpace(href: string)
    ensures BuildUrl(Decode(href)).Ok? ==> ' ' !in BuildUrl(Decode(href)).value
  {
    if |Decode(href)| >= 11 {
      UrlWhitespace(Decode(href), ' ');
    }
  }

  // ---------------------------------------------------------------------
  // The parameters

  /** Text strictly between space and `{`: no whitespace, no brace. Every
      name and fixed piece of the template is of this kind. */
  predicate Plain(text: string) {
    forall i :: 0 <= i < |text| ==> ' ' < text[i] < '{'
  }

  predicate Spaceless(text: string) {
    forall i :: 0 <= i < |text| ==> text[i] !in Whitespace
  }

  /** Every name is plain text that is not a positional field, and every
      parameter has a line in the template. */
  lemma NameFacts(p: Param)
    ensures Plain(Name(p)) && !Positional(Name(p))
    ensures p in TemplateOrder
  {
    NamePlain(p);
    assert Name(p)[0] != '0' && Name(p)[0] > '9';
    assert TemplateOrder[OrderOf(p)] == p;
  }

  lemma NamePlain(p: Param)
    ensures Plain(Name(p))
  {
    match p
    case NumeroFattura | Anno | Mese | P1 | DataEmissione => FirstNamesPlain(p);
    case _ => LastNamesPlain(p);
  }

  lemma FirstNamesPlain(p: Param)
    requires p in {NumeroFattura, Anno, Mese, P1, DataEmissione}
    ensures Plain(Name(p))
  {
    match p
    case NumeroFattura => assert Plain("numero_fattura");
    case Anno => assert Plain("anno");
    case Mese => assert Plain("mese");
    case P1 => assert Plain("p1");
    case DataEmissione => assert Plain("data_emissione");
    case _ =>
  }

  lemma LastNamesPlain(p: Param)
    requires p in {DocRowId, NumPagineFattura, OffsetInizioFatt, FlgTr, EnteFattura}
    ensures Plain(Name(p))
  {
    match p
    case DocRowId => assert Plain("doc_row_id");
    case NumPagineFattura => assert Plain("num_pagine_fattura");
    case OffsetInizioFatt => assert Plain("offset_inizio_fatt");
    case FlgTr => assert Plain("flgTr");
    case EnteFattura => assert Plain("ente_fattura");
    case _ =>
  }

  /** The line of the parameter in the template. */
  function OrderOf(p: Param): (j: nat)
    ensures j < |TemplateOrder| && TemplateOrder[j] == p
  {
    match p
    case NumeroFattura => 0
    case Anno => 1
    case Mese => 2
    case P1 => 3
    case DataEmissione => 4
    case DocRowId => 5
    case NumPagineFattura => 6
    case OffsetInizioFatt => 7
    case FlgTr => 8
    case EnteFattura => 9
  }

  /** No two parameters share a name. */
  lemma NamesDistinct()
    ensures forall p, q :: Name(p) == Name(q) ==> p == q
  {
  }

  /** The parameter that carries descriptor field `i`. */
  function ParamOf(i: nat): (p: Param)
    requires 1 <= i <= 10
    ensures Source(p) == i
    ensures p in TemplateOrder
  {
    if i == 1 then NumeroFattura
    else if i == 2 then Anno
    else if i == 3 then Mese
    else if i == 4 then DataEmissione
    else if i == 5 then DocRowId
    else if i == 6 then NumPagineFattura
    else if i == 7 then OffsetInizioFatt
    else if i == 8 then FlgTr
    else if i == 9 then P1
    else EnteFattura
  }

  /** Each keyword argument is the parameter's descriptor field. */
  lemma KeywordOf(fields: seq<string>, p: Param)
    requires |fields| >= 11
    ensures Name(p) in Keywords(fields)
    ensures Keywords(fields)[Name(p)] == fields[Source(p)]
  {
    NameFacts(p);
    NamesDistinct();
  }

  // ---------------------------------------------------------------------
  // The template, line by line
  //
  // Several lemmas below (LinesCons, ChainFormat, Regroup, Unkey, Rekey and
  // the Keys lemmas) state one regrouping of a concatenation or one literal
  // equality each. They only split the proof into steps small enough for the
  // solver; in UrlSpelledOut each `assert url == t + …` moves one parameter
  // from the open query into the spelled-out prefix.

  lemma HeadPlain()
    ensures Plain(Host) && Plain(Script)
  {
    HostPlain();
    ScriptPlain();
  }

  lemma HostPlain()
    ensures Plain(Host)
  {
  }

  lemma ScriptPlain()
    ensures Plain(Script)
  {
  }

  lemma SeparatorPlain(following: seq<Param>)
    ensures Plain(Separator(following))
  {
  }

  /** Plain text is left alone by whitespace deletion. */
  lemma PlainSpaceless(text: string)
    requires Plain(text)
    ensures Spaceless(text)
    ensures Without(text, Whitespace) == text
  {
    WithoutNothing(text, Whitespace);
  }

  /** Deleting whitespace from an indented piece of text leaves the text. */
  lemma StripIndent(text: string)
    requires Spaceless(text)
    ensures Without(Indent + text, Whitespace) == text
  {
    WithoutAppend(Indent, text, Whitespace);
    assert Without(Indent, Whitespace) == [];
    WithoutNothing(text, Whitespace);
  }

  /** A field line of a plain name has no whitespace. */
  lemma FieldLineSpaceless(name: string, sep: string)
    requires Plain(name) && Plain(sep)
    ensures Spaceless(FieldLine(name, sep))
  {
    var t := FieldLine(name, sep);
    assert Spaceless("={") && Spaceless("}");
    forall i | 0 <= i < |t| ensures t[i] !in Whitespace {
      if i < |name| {
        assert t[i] == name[i];
      } else if i < |name| + 2 {
        assert t[i] == "={"[i - |name|];
      } else if i < 2 * |name| + 2 {
        assert t[i] == name[i - |name| - 2];
      } else if i == 2 * |name| + 2 {
        assert t[i] == '}';
      } else {
        assert t[i] == sep[i - 2 * |name| - 3];
      }
    }
  }

  /** Deleting the whitespace of the indented field lines leaves the lines. */
  lemma {:induction false} StripLines(ps: seq<Param>)
    ensures Without(RawLines(ps), Whitespace) == Lines(ps)
    decreases |ps|
  {
    if |ps| > 0 {
      var line := FieldLine(Name(ps[0]), Separator(ps[1..]));
      NameFacts(ps[0]);
      SeparatorPlain(ps[1..]);
      FieldLineSpaceless(Name(ps[0]), Separator(ps[1..]));
      WithoutAppend(Indent + line, RawLines(ps[1..]), Whitespace);
      StripIndent(line);
      StripLines(ps[1..]);
    }
  }

  /** The template with its whitespace gone is the endpoint followed by the
      ten `name={name}` lines joined with `&`. */
  lemma StrippedTemplate()
    ensures UrlTemplate == Endpoint + Lines(TemplateOrder)
  {
    HeadPlain();
    PlainSpaceless(Host);
    PlainSpaceless(Script);
    WithoutAppend(Host + (Indent + Script), RawLines(TemplateOrder), Whitespace);
    WithoutAppend(Host, Indent + Script, Whitespace);
    StripIndent(Script);
    StripLines(TemplateOrder);
  }

  lemma PlainHasNoBrace(text: string)
    requires Plain(text)
    ensures '{' !in text && '}' !in text
  {
    assert forall i :: 0 <= i < |text| ==> text[i] != '{' && text[i] != '}';
  }

  /** A field line on its own formats to `name=value` and its separator. */
  lemma FormatOneLine(name: string, sep: string, kwargs: map<string, string>)
    requires Plain(name) && !Positional(name) && name in kwargs
    requires Plain(sep)
    ensures Format(FieldLine(name, sep), kwargs) == Ok(Pair(name, kwargs[name]) + sep)
  {
    PlainHasNoBrace(name);
    PlainHasNoBrace(sep);
    var field := "{" + name + "}";
    var key := name + "=";
    assert FieldLine(name, sep) == key + (field + sep);
    assert '{' !in key && '}' !in key;
    FormatLiteral(key, kwargs);
    FormatLiteral(sep, kwargs);
    FormatField(name, kwargs);
    FormatAppend(field, sep, kwargs);
    assert Format(field + sep, kwargs) == Ok(kwargs[name] + sep);
    FormatAppend(key, field + sep, kwargs);
    assert key + (kwargs[name] + sep) == Pair(name, kwargs[name]) + sep;
  }

  /** Formatting one more field line after a prefix that formats. */
  lemma FormatFieldLine(prefix: string, name: string, sep: string, kwargs: map<string, string>)
    requires Format(prefix, kwargs).Ok?
    requires Plain(name) && !Positional(name) && name in kwargs
    requires Plain(sep)
    ensures Format(prefix + FieldLine(name, sep), kwargs)
         == Ok(Format(prefix, kwargs).value + (Pair(name, kwargs[name]) + sep))
  {
    FormatOneLine(name, sep, kwargs);
    FormatAppend(prefix, FieldLine(name, sep), kwargs);
  }

  /** Formatting field lines after a prefix that formats appends the query. */
  lemma {:induction false} FormatLines(prefix: string, ps: seq<Param>, fields: seq<string>)
    requires |fields| >= 11
    requires Format(prefix, Keywords(fields)).Ok?
    ensures Format(prefix + Lines(ps), Keywords(fields))
         == Ok(Format(prefix, Keywords(fields)).value + Query(ps, fields))
    decreases |ps|
  {
    if |ps| == 0 {
      var v := Format(prefix, Keywords(fields)).value;
      assert prefix + [] == prefix;
      assert v + [] == v;
    } else {
      FormatNextLine(prefix, ps, fields);
      FormatLines(prefix + FieldLine(Name(ps[0]), Separator(ps[1..])), ps[1..], fields);
      FormatLinesStep(prefix, ps, fields);
    }
  }

  /** The prefix followed by the first field line formats. */
  lemma FormatNextLine(prefix: string, ps: seq<Param>, fields: seq<string>)
    requires |fields| >= 11 && |ps| > 0
    requires Format(prefix, Keywords(fields)).Ok?
    ensures Format(prefix + FieldLine(Name(ps[0]), Separator(ps[1..])), Keywords(fields))
         == Ok(Format(prefix, Keywords(fields)).value
               + (Pair(Name(ps[0]), fields[Source(ps[0])]) + Separator(ps[1..])))
  {
    NameFacts(ps[0]);
    SeparatorPlain(ps[1..]);
    KeywordOf(fields, ps[0]);
    FormatFieldLine(prefix, Name(ps[0]), Separator(ps[1..]), Keywords(fields));
  }

  /** Reassembling the first field line and the rest. */
  lemma FormatLinesStep(prefix: string, ps: seq<Param>, fields: seq<string>)
    requires |fields| >= 11 && |ps| > 0
    requires Format(prefix, Keywords(fields)).Ok?
    requires
      var next := prefix + FieldLine(Name(ps[0]), Separator(ps[1..]));
      && Format(next, Keywords(fields))
         == Ok(Format(prefix, Keywords(fields)).value
               + (Pair(Name(ps[0]), fields[Source(ps[0])]) + Separator(ps[1..])))
      && Format(next + Lines(ps[1..]), Keywords(fields))
         == Ok(Format(next, Keywords(fields)).value + Query(ps[1..], fields))
    ensures Format(prefix + Lines(ps), Keywords(fields))
         == Ok(Format(prefix, Keywords(fields)).value + Query(ps, fields))
  {
    var kw := Keywords(fields);
    var next := prefix + FieldLine(Name(ps[0]), Separator(ps[1..]));
    var v := Format(prefix, kw).value;
    LinesCons(prefix, ps);
    QueryAfter(v, ps, fields);
    ChainFormat(prefix + Lines(ps), next + Lines(ps[1..]), kw,
      Format(next, kw).value + Query(ps[1..], fields), v + Query(ps, fields));
  }

  lemma LinesCons(prefix: string, ps: seq<Param>)
    requires |ps| > 0
    ensures prefix + Lines(ps) == prefix + FieldLine(Name(ps[0]), Separator(ps[1..])) + Lines(ps[1..])
  {
  }

  lemma QueryAfter(v: string, ps: seq<Param>, fields: seq<string>)
    requires |fields| >= 11 && |ps| > 0
    ensures v + (Pair(Name(ps[0]), fields[Source(ps[0])]) + Separator(ps[1..])) + Query(ps[1..], fields)
         == v + Query(ps, fields)
  {
    QueryCons(ps, fields);
  }

  lemma ChainFormat(x: string, y: string, kwargs: map<string, string>, u: string, w: string)
    requires x == y && Format(y, kwargs) == Ok(u) && u == w
    ensures Format(x, kwargs) == Ok(w)
  {
  }

  /** The query of a non-empty parameter list: the first pair, its
      separator, and the query of the rest. */
  lemma QueryCons(ps: seq<Param>, fields: seq<string>)
    requires |fields| >= 11 && |ps| > 0
    ensures Query(ps, fields)
         == Pair(Name(ps[0]), fields[Source(ps[0])]) + Separator(ps[1..]) + Query(ps[1..], fields)
  {
    var head := Pair(Name(ps[0]), fields[Source(ps[0])]);
    var tail := Pairs(ps[1..], fields);
    assert Pairs(ps, fields) == [head] + tail;
    if |tail| > 0 {
      JoinCons(head, tail, '&');
    } else {
      assert head + [] + [] == head;
    }
  }

  /** Every URL spelled out: the endpoint, then the ten parameters in the
      template's order, each with the descriptor field it takes. */
  lemma UrlSpelledOut(f: seq<string>)
    requires |f| >= 11
    ensures BuildUrl(f) == if !Encodable(f) then Raised(UnicodeEncodeError) else Ok(
      Endpoint + "numero_fattura=" + f[1] + "&anno=" + f[2] + "&mese=" + f[3]
      + "&p1=" + f[9] + "&data_emissione=" + f[4] + "&doc_row_id=" + f[5]
      + "&num_pagine_fattura=" + f[6] + "&offset_inizio_fatt=" + f[7]
      + "&flgTr=" + f[8] + "&ente_fattura=" + f[10])
  {
    QueryHead(f);
    QueryLow(f);
    QueryMiddle(f);
    QueryHigh(f);
    var url := DirectUrl(f);
    var t := Endpoint;
    assert url == t + ("numero_fattura=" + f[1] + QueryFrom(1, f));
    Regroup(t, "numero_fattura=", f[1], QueryFrom(1, f));
    t := t + "numero_fattura=" + f[1];
    assert url == t + ("&anno=" + f[2] + QueryFrom(2, f));
    Regroup(t, "&anno=", f[2], QueryFrom(2, f));
    t := t + "&anno=" + f[2];
    assert url == t + ("&mese=" + f[3] + QueryFrom(3, f));
    Regroup(t, "&mese=", f[3], QueryFrom(3, f));
    t := t + "&mese=" + f[3];
    assert url == t + ("&p1=" + f[9] + QueryFrom(4, f));
    Regroup(t, "&p1=", f[9], QueryFrom(4, f));
    t := t + "&p1=" + f[9];
    assert url == t + ("&data_emissione=" + f[4] + QueryFrom(5, f));
    Regroup(t, "&data_emissione=", f[4], QueryFrom(5, f));
    t := t + "&data_emissione=" + f[4];
    assert url == t + ("&doc_row_id=" + f[5] + QueryFrom(6, f));
    Regroup(t, "&doc_row_id=", f[5], QueryFrom(6, f));
    t := t + "&doc_row_id=" + f[5];
    assert url == t + ("&num_pagine_fattura=" + f[6] + QueryFrom(7, f));
    Regroup(t, "&num_pagine_fattura=", f[6], QueryFrom(7, f));
    t := t + "&num_pagine_fattura=" + f[6];
    assert url == t + ("&offset_inizio_fatt=" + f[7] + QueryFrom(8, f));
    Regroup(t, "&offset_inizio_fatt=", f[7], QueryFrom(8, f));
    t := t + "&offset_inizio_fatt=" + f[7];
    assert url == t + ("&flgTr=" + f[8] + QueryFrom(9, f));
    Regroup(t, "&flgTr=", f[8], QueryFrom(9, f));
    t := t + "&flgTr=" + f[8];
    assert url == t + ("&ente_fattura=" + f[10] + "");
    Regroup(t, "&ente_fattura=", f[10], "");
    assert t + "&ente_fattura=" + f[10] + "" == t + "&ente_fattura=" + f[10];
  }

  /** `t` followed by a piece made of three parts. */
  lemma Regroup(t: string, a: string, b: string, c: string)
    ensures t + (a + b + c) == t + a + b + c
  {
  }

  /** The query opens with the first parameter's pair. */
  lemma QueryHead(f: seq<string>)
    requires |f| >= 11
    ensures Query(TemplateOrder, f) == "numero_fattura=" + f[1] + QueryFrom(1, f)
  {
    QueryAt(0, f);
    assert TemplateOrder[0..] == TemplateOrder && TemplateOrder[0] == NumeroFattura;
    assert Name(NumeroFattura) + "=" == "numero_fattura=";
    Unkey(Name(NumeroFattura), f[1], QueryFrom(1, f));
  }

  /** The query from the `k`-th parameter of the template on, behind its `&`. */
  function QueryFrom(k: nat, f: seq<string>): string
    requires k <= 10 && |f| >= 11
  {
    "&" + Query(TemplateOrder[k..], f)
  }

  /** The query behind each of the parameters 1 to 9, one pair at a time;
      `QueryLow`, `QueryMiddle` and `QueryHigh` each take three of them, and
      `KeysLow`, `KeysMiddle` and `KeysHigh` give their keys as text. */
  lemma QueryLow(f: seq<string>)
    requires |f| >= 11
    ensures QueryFrom(1, f) == "&anno=" + f[2] + QueryFrom(2, f)
    ensures QueryFrom(2, f) == "&mese=" + f[3] + QueryFrom(3, f)
    ensures QueryFrom(3, f) == "&p1=" + f[9] + QueryFrom(4, f)
  {
    KeysLow();
    assert TemplateOrder == [NumeroFattura, Anno, Mese, P1, DataEmissione, DocRowId, NumPagineFattura, OffsetInizioFatt, FlgTr, EnteFattura];
    QueryPiece(1, f, "&anno=", 2);
    QueryPiece(2, f, "&mese=", 3);
    QueryPiece(3, f, "&p1=", 9);
  }

  lemma KeysLow()
    ensures "&" + Name(Anno) + "=" == "&anno=" && Source(Anno) == 2
    ensures "&" + Name(Mese) + "=" == "&mese=" && Source(Mese) == 3
    ensures "&" + Name(P1) + "=" == "&p1=" && Source(P1) == 9
  {
  }

  lemma QueryMiddle(f: seq<string>)
    requires |f| >= 11
    ensures QueryFrom(4, f) == "&data_emissione=" + f[4] + QueryFrom(5, f)
    ensures QueryFrom(5, f) == "&doc_row_id=" + f[5] + QueryFrom(6, f)
    ensures QueryFrom(6, f) == "&num_pagine_fattura=" + f[6] + QueryFrom(7, f)
  {
    KeysMiddle();
    assert TemplateOrder == [NumeroFattura, Anno, Mese, P1, DataEmissione, DocRowId, NumPagineFattura, OffsetInizioFatt, FlgTr, EnteFattura];
    QueryPiece(4, f, "&data_emissione=", 4);
    QueryPiece(5, f, "&doc_row_id=", 5);
    QueryPiece(6, f, "&num_pagine_fattura=", 6);
  }

  lemma KeysMiddle()
    ensures "&" + Name(DataEmissione) + "=" == "&data_emissione=" && Source(DataEmissione) == 4
    ensures "&" + Name(DocRowId) + "=" == "&doc_row_id=" && Source(DocRowId) == 5
    ensures "&" + Name(NumPagineFattura) + "=" == "&num_pagine_fattura=" && Source(NumPagineFattura) == 6
  {
  }

  lemma QueryHigh(f: seq<string>)
    requires |f| >= 11
    ensures QueryFrom(7, f) == "&offset_inizio_fatt=" + f[7] + QueryFrom(8, f)
    ensures QueryFrom(8, f) == "&flgTr=" + f[8] + QueryFrom(9, f)
    ensures QueryFrom(9, f) == "&ente_fattura=" + f[10] + ""
  {
    KeysHigh();
    assert TemplateOrder == [NumeroFattura, Anno, Mese, P1, DataEmissione, DocRowId, NumPagineFattura, OffsetInizioFatt, FlgTr, EnteFattura];
    QueryPiece(7, f, "&offset_inizio_fatt=", 7);
    QueryPiece(8, f, "&flgTr=", 8);
    QueryPiece(9, f, "&ente_fattura=", 10);
  }

  lemma KeysHigh()
    ensures "&" + Name(OffsetInizioFatt) + "=" == "&offset_inizio_fatt=" && Source(OffsetInizioFatt) == 7
    ensures "&" + Name(FlgTr) + "=" == "&flgTr=" && Source(FlgTr) == 8
    ensures "&" + Name(EnteFattura) + "=" == "&ente_fattura=" && Source(EnteFattura) == 10
  {
  }

  /** The query from the `k`-th parameter of the template on, behind its
      `&`: that parameter's pair, then the rest of the query. */
  lemma QueryPiece(k: nat, f: seq<string>, key: string, i: nat)
    requires k < 10 && |f| >= 11
    requires key == "&" + Name(TemplateOrder[k]) + "=" && i == Source(TemplateOrder[k])
    ensures "&" + Query(TemplateOrder[k..], f)
         == key + f[i] + (if k < 9 then "&" + Query(TemplateOrder[k + 1..], f) else "")
  {
    var tail := if k < 9 then "&" + Query(TemplateOrder[k + 1..], f) else "";
    QueryAt(k, f);
    assert Query(TemplateOrder[k..], f) == Pair(Name(TemplateOrder[k]), f[i]) + tail;
    Rekey(Name(TemplateOrder[k]), f[i], tail);
  }

  /** A pair followed by more text, split after its `=`. */
  lemma Unkey(name: string, value: string, tail: string)
    ensures Pair(name, value) + tail == (name + "=") + value + tail
  {
  }

  /** Moving the `&` in front of a pair into its key. */
  lemma Rekey(name: string, value: string, tail: string)
    ensures "&" + (Pair(name, value) + tail) == ("&" + name + "=") + value + tail
  {
  }

  /** The query from the `k`-th parameter of the template on. */
  lemma QueryAt(k: nat, f: seq<string>)
    requires k < 10 && |f| >= 11
    ensures k < 9 ==>
              Query(TemplateOrder[k..], f)
              == Pair(Name(TemplateOrder[k]), f[Source(TemplateOrder[k])]) + ("&" + Query(TemplateOrder[k + 1..], f))
    ensures k == 9 ==> Query(TemplateOrder[k..], f) == Pair(Name(TemplateOrder[k]), f[Source(TemplateOrder[k])]) + ""
  {
    QueryCons(TemplateOrder[k..], f);
    assert TemplateOrder[k..][1..] == TemplateOrder[k + 1..];
    if k == 9 {
      assert Pairs(TemplateOrder[10..], f) == [];
    }
  }

  /** Formatting the template with the keywords of a decoded link fills every
      field line with its value. */
  lemma TemplateExpansion(fields: seq<string>)
    requires |fields| >= 11
    ensures Format(Endpoint + Lines(TemplateOrder), Keywords(fields)) == Ok(DirectUrl(fields))
  {
    HeadPlain();
    PlainHasNoBrace(Host);
    PlainHasNoBrace(Script);
    assert '{' !in Endpoint && '}' !in Endpoint;
    FormatLiteral(Endpoint, Keywords(fields));
    FormatLines(Endpoint, TemplateOrder, fields);
  }
}
