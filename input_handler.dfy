/** `input_handler.py`: how a source string is classified (local PDF, arXiv
    id, DOI or URL), the recognizers behind that, the file names of
    downloads, the check of a local path and the bounded retry loop of a
    download. Whether a path exists and what each download attempt answers
    are parameters; the network, the arXiv metadata and TeX side files and
    the DOI content negotiation are not part of this model. */
module InputHandler {
  import opened Text
  import opened Models
  import Paths

  // ---------------------------------------------------------------- arXiv ids

  predicate AllDigits(t: string) { forall k :: 0 <= k < |t| ==> IsDigit(t[k]) }

  /** An optional version suffix `(?:v\d+)?`. */
  predicate IsVersion(v: string) { v == [] || (|v| >= 2 && v[0] == 'v' && AllDigits(v[1..])) }

  /** The shape of an arXiv id, `\d{4}\.\d{4,5}(?:v\d+)?`, as a whole string:
      four digits, a dot, four or five digits, then an optional version. */
  predicate IsArxivId(t: string) {
    && |t| >= 9 && AllDigits(t[..4]) && t[4] == '.' && AllDigits(t[5..9])
    && (IsVersion(t[9..]) || (|t| >= 10 && IsDigit(t[9]) && IsVersion(t[10..])))
  }

  /** Where the greedy match of `\d{4}\.\d{4,5}(?:v\d+)?` that starts at `i`
      ends, if there is one: five digits after the dot when the fifth is
      there, and the version only when `v` is followed by a digit. */
  function IdEnd(s: string, i: nat): (e: Option<nat>)
    requires i <= |s|
    ensures e.Some? ==> i + 9 <= e.value <= |s|
  {
    if i + 9 <= |s| && AllDigits(s[i..i + 4]) && s[i + 4] == '.' && AllDigits(s[i + 5..i + 9]) then
      var d := if i + 9 < |s| && IsDigit(s[i + 9]) then i + 10 else i + 9;
      Some(if d + 1 < |s| && s[d] == 'v' && IsDigit(s[d + 1]) then DigitEnd(s, d + 1) else d)
    else None
  }

  /** What the greedy match captures is an arXiv id. */
  lemma {:induction false} IdEndIsId(s: string, i: nat)
    requires i <= |s| && IdEnd(s, i).Some?
    ensures IsArxivId(s[i..IdEnd(s, i).value])
  {
    var e := IdEnd(s, i).value;
    var t := s[i..e];
    var d := if i + 9 < |s| && IsDigit(s[i + 9]) then i + 10 else i + 9;
    assert t[..4] == s[i..i + 4] && t[5..9] == s[i + 5..i + 9];
    if d == i + 10 {
      assert IsDigit(t[9]);
    }
    var v := t[d - i..];
    assert v == s[d..e];
    if e != d {
      assert v[1..] == s[d + 1..e];
    }
  }

  /** An arXiv id that runs to the end of the text is matched in full. */
  lemma {:induction false} IdAtEnd(s: string, i: nat)
    requires i <= |s| && IsArxivId(s[i..])
    ensures IdEnd(s, i) == Some(|s|)
  {
    var t := s[i..];
    assert s[i..i + 4] == t[..4] && s[i + 5..i + 9] == t[5..9];
    assert s[i + 4] == t[4];
    var d := if 9 < |t| && IsDigit(t[9]) then 10 else 9;
    var v := t[d..];
    if IsVersion(t[9..]) && t[9..] != [] {
      assert t[9] == 'v' && !IsDigit(t[9]);
    }
    assert IsVersion(v);
    if v != [] {
      assert s[i + d] == 'v' && IsDigit(s[i + d + 1]) by {
        assert v[1..][0] == t[d + 1];
      }
      forall j | i + d + 1 <= j < |s| ensures IsDigit(s[j]) {
        assert s[j] == v[1..][j - i - d - 1];
      }
      DigitRunToEnd(s, i + d + 1);
    }
  }

  lemma {:induction false} DigitRunToEnd(s: string, i: nat)
    requires i <= |s| && forall j :: i <= j < |s| ==> IsDigit(s[j])
    ensures DigitEnd(s, i) == |s|
    decreases |s| - i
  {
    if i < |s| {
      DigitRunToEnd(s, i + 1);
    }
  }

  /** `pattern.search(s)` for `<prefix>(<id>)`: the capture at the leftmost
      occurrence of `prefix` at or after `j` that is followed by an id. */
  function SearchId(s: string, prefix: string, j: nat): (r: Option<string>)
    requires j <= |s|
    ensures r.Some? ==> IsArxivId(r.value)
    decreases |s| - j
  {
    if j == |s| || j + |prefix| > |s| then None
    else if MatchAt(s, prefix, j) && IdEnd(s, j + |prefix|).Some? then
      IdEndIsId(s, j + |prefix|);
      Some(s[j + |prefix|..IdEnd(s, j + |prefix|).value])
    else SearchId(s, prefix, j + 1)
  }

  /** The third pattern, `^(<id>)$`: the whole string is an id, or an id
      followed by one final newline (where `$` also matches). */
  function BareId(s: string): (r: Option<string>)
    ensures r.Some? ==> IsArxivId(r.value)
    ensures IsArxivId(s) ==> r == Some(s)
  {
    if IsArxivId(s) then IdAtEnd(s, 0); Some(s)
    else if s != [] && s[|s| - 1] == '\n' && IsArxivId(s[..|s| - 1]) then Some(s[..|s| - 1])
    else None
  }

  /** The three `ARXIV_PATTERNS` tried in order: abs URL, pdf URL, bare id. */
  function ArxivMatch(s: string): (r: Option<string>)
    ensures r.Some? ==> IsArxivId(r.value)
  {
    var abs := SearchId(s, "arxiv.org/abs/", 0);
    if abs.Some? then abs
    else
      var pdf := SearchId(s, "arxiv.org/pdf/", 0);
      if pdf.Some? then pdf else BareId(s)
  }

  /** `_extract_arxiv_id`: the capture of the first pattern that matches,
      an `InputError` when none does. */
  function ExtractArxivId(source: string): (r: Result<string>)
    ensures r.Ok? ==> IsArxivId(r.value)
    ensures r.Err? <==> ArxivMatch(source).None?
    ensures r.Err? ==> r.error == InputError("Cannot extract arXiv ID from: " + source)
  {
    match ArxivMatch(source)
    case Some(id) => Ok(id)
    case None => Err(InputError("Cannot extract arXiv ID from: " + source))
  }

  /** A bare id comes back unchanged, and extracting from an extracted id
      gives it back. */
  lemma {:induction false} ExtractBareId(id: string)
    requires IsArxivId(id)
    ensures ExtractArxivId(id) == Ok(id)
  {
    if SearchId(id, "arxiv.org/abs/", 0).Some? {
      NoPrefixInId(id, "arxiv.org/abs/", 0);
    }
    if SearchId(id, "arxiv.org/pdf/", 0).Some? {
      NoPrefixInId(id, "arxiv.org/pdf/", 0);
    }
  }

  /** An id holds no letter other than `v`, so no URL prefix occurs in it. */
  lemma {:induction false} NoPrefixInId(id: string, prefix: string, j: nat)
    requires IsArxivId(id) && j <= |id|
    requires |prefix| >= 1 && prefix[0] == 'a'
    ensures SearchId(id, prefix, j).None?
    decreases |id| - j
  {
    if j + |prefix| <= |id| {
      if MatchAt(id, prefix, j) {
        assert id[j] == prefix[0] == 'a';
        IdCharacters(id, j);
      }
      NoPrefixInId(id, prefix, j + 1);
    }
  }

  /** Every character of an id is a digit, the dot or `v`. */
  lemma {:induction false} IdCharacters(id: string, k: nat)
    requires IsArxivId(id) && k < |id|
    ensures IsDigit(id[k]) || id[k] == '.' || id[k] == 'v'
  {
    if k < 4 {
      assert id[k] == id[..4][k];
    } else if 5 <= k < 9 {
      assert id[k] == id[5..9][k - 5];
    } else if k >= 9 {
      if IsVersion(id[9..]) {
        if k > 9 {
          assert id[k] == id[9..][1..][k - 10];
        }
      } else if k > 10 {
        assert id[k] == id[10..][1..][k - 11];
      }
    }
  }

  // ---------------------------------------------------------------- DOIs

  /** `DOI_PATTERN.match`: `10.`, at least four digits, `/`, then at least one
      character that is not whitespace up to the end (or up to one final
      newline, where `$` also matches). */
  predicate IsDoi(s: string) {
    && StartsWith(s, "10.")
    && var d := DigitEnd(s, 3);
       && d >= 7 && d < |s| && s[d] == '/'
       && var body := s[d + 1..];
          var b := if body != [] && body[|body| - 1] == '\n' then body[..|body| - 1] else body;
          b != [] && forall k :: 0 <= k < |b| ==> !IsSpace(b[k])
  }

  // ---------------------------------------------------------------- paths

  /** `Path(p).name`: the last part `pathlib` keeps, or empty when it keeps
      none (`.`, `/`, the empty text). */
  function PathName(p: string): (r: string)
    ensures r == [] || Paths.Component(r)
  {
    Paths.ParseNormal(p);
    Paths.Name(Paths.ParsePath(p))
  }

  /** A trailing `/` or `/.` does not change the name, so it does not change
      the suffix either: `Path("a.pdf/.").suffix` is `.pdf`. */
  lemma {:induction false} TrailingPartsIgnored(name: string)
    requires Paths.Component(name)
    ensures PathName(name + "/") == name && PathName(name + "/.") == name
    ensures IsPdfPath(name + "/") == IsPdfPath(name) && IsPdfPath(name + "/.") == IsPdfPath(name)
  {
    Paths.ParseComponent(name);
    TrailingPiece(name, "");
    TrailingPiece(name, ".");
    assert name + ['/'] + "" == name + "/";
    assert name + ['/'] + "." == name + "/.";
  }

  /** A last piece that `pathlib` drops leaves the name to the part before. */
  lemma {:induction false} TrailingPiece(name: string, last: string)
    requires Paths.Component(name) && (last == "" || last == ".")
    ensures PathName(name + ['/'] + last) == name
  {
    Paths.SplitNone(last, '/');
    Paths.SplitFirst(name, last, '/');
    assert Paths.Components([name, last]) == [name] + Paths.Components([last]);
    assert Paths.Components([last]) == [] + Paths.Components([]);
  }

  /** Index of the last `c` in `s`, if any. */
  function LastIndexOf(s: string, c: char): (r: Option<nat>)
    ensures r.Some? ==> r.value < |s| && s[r.value] == c && forall j :: r.value < j < |s| ==> s[j] != c
    ensures r.None? ==> c !in s
  {
    if s == [] then None
    else if s[|s| - 1] == c then Some(|s| - 1)
    else LastIndexOf(s[..|s| - 1], c)
  }

  /** `Path(p).suffix`: from the last dot of the name, when that dot is
      neither the first nor the last character of the name. */
  function Suffix(p: string): (r: string)
    ensures r != [] ==> r[0] == '.' && '.' !in r[1..] && '/' !in r
  {
    var name := PathName(p);
    match LastIndexOf(name, '.')
    case Some(i) => if 0 < i < |name| - 1 then name[i..] else ""
    case None => ""
  }

  predicate IsPdfPath(p: string) { Lower(Suffix(p)) == ".pdf" }

  // ---------------------------------------------------------------- detection

  /** `detect_source_type`, where `onDisk` says whether `source` names an
      existing path: a local PDF first, then any arXiv pattern, then a DOI,
      then an `http://` or `https://` URL, else an `InputError`. */
  function DetectSourceType(source: string, onDisk: bool): (r: Result<SourceType>)
    ensures r == Ok(PdfFile) <==> onDisk && IsPdfPath(source)
    ensures r == Ok(ArxivId) <==> !(onDisk && IsPdfPath(source)) && ArxivMatch(source).Some?
    ensures r == Ok(Doi) <==> !(onDisk && IsPdfPath(source)) && ArxivMatch(source).None? && IsDoi(source)
    ensures r.Err? ==> r.error == InputError("Cannot determine source type for: " + source)
    ensures r.Err? <==> !(onDisk && IsPdfPath(source)) && ArxivMatch(source).None? && !IsDoi(source)
                        && !StartsWith(source, "http://") && !StartsWith(source, "https://")
  {
    if onDisk && IsPdfPath(source) then Ok(PdfFile)
    else if ArxivMatch(source).Some? then Ok(ArxivId)
    else if IsDoi(source) then Ok(Doi)
    else if StartsWith(source, "http://") || StartsWith(source, "https://") then Ok(PdfUrl)
    else Err(InputError("Cannot determine source type for: " + source))
  }

  /** A source detected as arXiv always yields an id, so resolving it never
      fails at the extraction step. */
  lemma {:induction false} DetectedArxivExtracts(source: string, onDisk: bool)
    requires DetectSourceType(source, onDisk) == Ok(ArxivId)
    ensures ExtractArxivId(source).Ok? && IsArxivId(ExtractArxivId(source).value)
  {
  }

  /** A bare arXiv id that does not name a local PDF is detected as arXiv, and
      its id is itself. */
  lemma {:induction false} BareIdDetected(id: string, onDisk: bool)
    requires IsArxivId(id) && !(onDisk && IsPdfPath(id))
    ensures DetectSourceType(id, onDisk) == Ok(ArxivId)
    ensures ExtractArxivId(id) == Ok(id)
  {
    ExtractBareId(id);
  }

  /** `_resolve_local`: `Path(path)` (printed, as `str` prints it) when it
      exists and has a `.pdf` suffix in any case, otherwise an `InputError`
      naming the path as given and saying which check failed. */
  function ResolveLocal(path: string, onDisk: bool): (r: Result<string>)
    ensures r.Ok? <==> onDisk && IsPdfPath(path)
    ensures r.Ok? ==> r.value == Paths.Render(Paths.ParsePath(path))
    ensures !onDisk ==> r == Err(InputError("File not found: " + path))
    ensures onDisk && !IsPdfPath(path) ==> r == Err(InputError("Not a PDF file: " + path))
  {
    if !onDisk then Err(InputError("File not found: " + path))
    else if !IsPdfPath(path) then Err(InputError("Not a PDF file: " + path))
    else Ok(Paths.Render(Paths.ParsePath(path)))
  }

  // ---------------------------------------------------------------- file names

  /** The default download name: the last `/`-segment of the URL, with `.pdf`
      added unless it already ends so. */
  function DefaultFilename(url: string): (name: string)
    ensures EndsWith(name, ".pdf") && '/' !in name
  {
    var parts := Split(url, '/');
    var last := parts[|parts| - 1];
    if EndsWith(last, ".pdf") then last else last + ".pdf"
  }

  /** A URL whose last segment already ends in `.pdf` keeps that segment as
      its name, which is how the URL ends. */
  lemma {:induction false} DefaultFilenameOfPdfUrl(url: string)
    requires EndsWith(Split(url, '/')[|Split(url, '/')| - 1], ".pdf")
    ensures DefaultFilename(url) == Split(url, '/')[|Split(url, '/')| - 1]
  {
  }

  function ArxivFilename(id: string): string { "arxiv_" + id + ".pdf" }

  function DoiFilename(doi: string): string { "doi_" + ReplaceChar(doi, '/', '_') + ".pdf" }

  /** The arXiv and DOI download names are single path components ending in
      `.pdf`. */
  lemma {:induction false} DerivedFilenames(id: string, doi: string)
    requires IsArxivId(id)
    ensures '/' !in ArxivFilename(id) && EndsWith(ArxivFilename(id), ".pdf")
    ensures '/' !in DoiFilename(doi) && EndsWith(DoiFilename(doi), ".pdf")
  {
    var a := ArxivFilename(id);
    forall k | 0 <= k < |a| ensures a[k] != '/' {
      if 6 <= k < 6 + |id| {
        assert a[k] == id[k - 6];
        IdCharacters(id, k - 6);
      }
    }
    var d := DoiFilename(doi);
    var r := ReplaceChar(doi, '/', '_');
    forall k | 0 <= k < |d| ensures d[k] != '/' {
      if 4 <= k < 4 + |r| {
        assert d[k] == r[k - 4];
      }
    }
    assert a[|a| - 4..] == ".pdf" && d[|d| - 4..] == ".pdf";
  }

  /** `self.temp_dir / name`, printed: where a download is written. The
      directory is `Path(temp_dir)`. */
  function OutputPath(tempDir: string, name: string): string {
    Paths.Render(Paths.Slash(Paths.ParsePath(tempDir), Paths.ParsePath(name)))
  }

  /** A download named by a single part lands directly inside the temporary
      directory: the printed path parses back to that directory plus the
      name. */
  lemma {:induction false} OutputPathInTempDir(tempDir: string, name: string)
    requires '/' !in name && EndsWith(name, ".pdf")
    ensures var dir := Paths.ParsePath(tempDir);
      Paths.ParsePath(OutputPath(tempDir, name)) == Paths.PurePath(dir.absolute, dir.parts + [name])
  {
    assert |name| >= 4 && name != ".";
    Paths.AppendPart(tempDir, name);
  }

  /** The three download names (URL default, arXiv, DOI) all land directly
      inside the temporary directory. */
  lemma {:induction false} DownloadsInTempDir(tempDir: string, url: string, id: string, doi: string)
    requires IsArxivId(id)
    ensures var dir := Paths.ParsePath(tempDir);
      && Paths.ParsePath(OutputPath(tempDir, DefaultFilename(url))) == Paths.PurePath(dir.absolute, dir.parts + [DefaultFilename(url)])
      && Paths.ParsePath(OutputPath(tempDir, ArxivFilename(id))) == Paths.PurePath(dir.absolute, dir.parts + [ArxivFilename(id)])
      && Paths.ParsePath(OutputPath(tempDir, DoiFilename(doi))) == Paths.PurePath(dir.absolute, dir.parts + [DoiFilename(doi)])
  {
    DerivedFilenames(id, doi);
    OutputPathInTempDir(tempDir, DefaultFilename(url));
    OutputPathInTempDir(tempDir, ArxivFilename(id));
    OutputPathInTempDir(tempDir, DoiFilename(doi));
  }

  /** With the default temporary directory `./tmp`, a download is written to
      `tmp/<name>`: `pathlib` drops the leading `./`. */
  lemma {:induction false} DefaultTempPath(name: string)
    requires '/' !in name && EndsWith(name, ".pdf")
    ensures OutputPath("./tmp", name) == Join(["tmp", name], "/")
  {
    DefaultTempDir();
    assert |name| >= 4 && name != ".";
    Paths.ParseComponent(name);
  }

  lemma {:induction false} DefaultTempDir()
    ensures Paths.ParsePath("./tmp") == Paths.PurePath(false, ["tmp"])
  {
    DefaultTempText();
    Paths.SplitNone("tmp", '/');
    Paths.SplitFirst(".", "tmp", '/');
    var pieces := [".", "tmp"];
    assert Paths.Components(pieces[1..]) == ["tmp"];
    assert !StartsWith("./tmp", "/");
  }

  lemma {:induction false} DefaultTempText()
    ensures "./tmp" == "." + ['/'] + "tmp"
  {
  }

  // ---------------------------------------------------------------- download retries

  /** What one download attempt gives: an HTTP status, a client error
      (`aiohttp.ClientError`) with its message, or another exception the loop
      does not catch (the `asyncio.TimeoutError` of the 120-second timeout,
      an `OSError` from writing the file). */
  datatype Attempt = Status(code: nat) | ClientFailure(message: string) | Escaped(message: string)

  /** The outcome of `fetch_url` from attempt `attempt` on, when `outcome(k)`
      is what attempt `k` gives and the file is written to `path`. */
  function FetchFrom(url: string, path: string, maxRetries: int, outcome: nat -> Attempt, attempt: nat): Result<string>
    decreases if attempt < maxRetries then maxRetries - attempt else 0
  {
    if attempt >= maxRetries then Err(InputError("Failed to fetch " + url))
    else match outcome(attempt)
      case Status(code) =>
        if code == 200 then Ok(path) else Err(InputError("HTTP " + Decimal(code) + " fetching " + url))
      case ClientFailure(e) =>
        if attempt == maxRetries - 1 then
          Err(InputError("Failed to fetch " + url + " after " + Decimal(maxRetries) + " attempts: " + e))
        else FetchFrom(url, path, maxRetries, outcome, attempt + 1)
      case Escaped(e) => Err(OtherException(e))
  }

  /** `fetch_url`: the file name defaults from the URL; each attempt either
      succeeds (status 200), fails for good (another status), or is retried
      after a client error unless it was the last one. `tries` is the number
      of attempts made. */
  method FetchUrl(tempDir: string, url: string, filename: Option<string>, maxRetries: int, outcome: nat -> Attempt)
    returns (r: Result<string>, tries: nat)
    ensures r == FetchFrom(url, OutputPath(tempDir, if filename.Some? then filename.value else DefaultFilename(url)),
                           maxRetries, outcome, 0)
    ensures maxRetries <= 0 ==> tries == 0
    ensures maxRetries > 0 ==> 1 <= tries <= maxRetries
    ensures forall k :: 0 <= k < tries - 1 ==> outcome(k).ClientFailure?
  {
    var name := if filename.Some? then filename.value else DefaultFilename(url);
    var path := OutputPath(tempDir, name);
    var attempt: nat := 0;
    while attempt < maxRetries
      invariant attempt == 0 || attempt < maxRetries
      invariant FetchFrom(url, path, maxRetries, outcome, 0) == FetchFrom(url, path, maxRetries, outcome, attempt)
      invariant forall k :: 0 <= k < attempt ==> outcome(k).ClientFailure?
      decreases maxRetries - attempt
    {
      match outcome(attempt)
      case Status(code) =>
        if code != 200 {
          return Err(InputError("HTTP " + Decimal(code) + " fetching " + url)), attempt + 1;
        }
        return Ok(path), attempt + 1;
      case Escaped(e) =>
        return Err(OtherException(e)), attempt + 1;
      case ClientFailure(e) =>
        if attempt == maxRetries - 1 {
          return Err(InputError("Failed to fetch " + url + " after " + Decimal(maxRetries) + " attempts: " + e)), attempt + 1;
        }
        attempt := attempt + 1;
    }
    return Err(InputError("Failed to fetch " + url)), 0;
  }

  /** A download succeeds exactly when some attempt within the bound answers
      200 and every attempt before it was a client error; the file is then
      the one named by `path`. */
  lemma {:induction false} FetchSucceeds(url: string, path: string, maxRetries: int, outcome: nat -> Attempt, attempt: nat)
    ensures FetchFrom(url, path, maxRetries, outcome, attempt).Ok? <==>
      exists n :: attempt <= n < maxRetries && outcome(n) == Status(200)
                  && forall k :: attempt <= k < n ==> outcome(k).ClientFailure?
    ensures FetchFrom(url, path, maxRetries, outcome, attempt).Ok? ==> FetchFrom(url, path, maxRetries, outcome, attempt).value == path
    decreases if attempt < maxRetries then maxRetries - attempt else 0
  {
    if attempt < maxRetries && outcome(attempt).ClientFailure? && attempt != maxRetries - 1 {
      FetchSucceeds(url, path, maxRetries, outcome, attempt + 1);
      if FetchFrom(url, path, maxRetries, outcome, attempt).Ok? {
        var n :| attempt + 1 <= n < maxRetries && outcome(n) == Status(200)
                 && forall k :: attempt + 1 <= k < n ==> outcome(k).ClientFailure?;
        assert forall k :: attempt <= k < n ==> outcome(k).ClientFailure?;
      }
    }
  }

  /** The trailing `raise` after the loop ("Failed to fetch <url>") is
      reached exactly when `max_retries` is not positive: every attempt
      within the bound ends the loop one way or another. */
  lemma {:induction false} TrailingRaiseOnlyWithoutAttempts(url: string, path: string, maxRetries: int, outcome: nat -> Attempt)
    ensures FetchFrom(url, path, maxRetries, outcome, 0) == Err(InputError("Failed to fetch " + url)) <==> maxRetries <= 0
  {
    if maxRetries > 0 {
      NoTrailingRaise(url, path, maxRetries, outcome, 0);
    }
  }

  lemma {:induction false} NoTrailingRaise(url: string, path: string, maxRetries: int, outcome: nat -> Attempt, attempt: nat)
    requires attempt < maxRetries
    ensures FetchFrom(url, path, maxRetries, outcome, attempt) != Err(InputError("Failed to fetch " + url))
    decreases maxRetries - attempt
  {
    var plain := "Failed to fetch " + url;
    match outcome(attempt)
    case Status(code) =>
      if code != 200 {
        var m := "HTTP " + Decimal(code) + " fetching " + url;
        assert m[0] == 'H' && plain[0] == 'F';
      }
    case ClientFailure(e) =>
      if attempt == maxRetries - 1 {
        var m := "Failed to fetch " + url + " after " + Decimal(maxRetries) + " attempts: " + e;
        assert |m| > |plain|;
      } else {
        NoTrailingRaise(url, path, maxRetries, outcome, attempt + 1);
      }
    case Escaped(_) =>
  }

  /** A status other than 200 ends the download at once, without retry. */
  lemma {:induction false} BadStatusNotRetried(url: string, path: string, maxRetries: int, outcome: nat -> Attempt, n: nat)
    requires n < maxRetries && outcome(n).Status? && outcome(n).code != 200
    requires forall k :: 0 <= k < n ==> outcome(k).ClientFailure?
    ensures FetchFrom(url, path, maxRetries, outcome, 0)
            == Err(InputError("HTTP " + Decimal(outcome(n).code) + " fetching " + url))
  {
    ReachAttempt(url, path, maxRetries, outcome, n);
  }

  /** Any other exception ends the download at once, without retry, and
      propagates unchanged. */
  lemma {:induction false} EscapedNotRetried(url: string, path: string, maxRetries: int, outcome: nat -> Attempt, n: nat)
    requires n < maxRetries && outcome(n).Escaped?
    requires forall k :: 0 <= k < n ==> outcome(k).ClientFailure?
    ensures FetchFrom(url, path, maxRetries, outcome, 0) == Err(OtherException(outcome(n).message))
  {
    ReachAttempt(url, path, maxRetries, outcome, n);
  }

  /** After `maxRetries` client errors the download fails with the last
      error's message. */
  lemma {:induction false} RetriesExhausted(url: string, path: string, maxRetries: int, outcome: nat -> Attempt)
    requires maxRetries > 0
    requires forall k :: 0 <= k < maxRetries ==> outcome(k).ClientFailure?
    ensures FetchFrom(url, path, maxRetries, outcome, 0)
            == Err(InputError("Failed to fetch " + url + " after " + Decimal(maxRetries) + " attempts: "
                              + outcome(maxRetries - 1).message))
  {
    ReachAttempt(url, path, maxRetries, outcome, maxRetries - 1);
  }

  /** Client errors before attempt `n` only pass the download on to it. */
  lemma {:induction false} ReachAttempt(url: string, path: string, maxRetries: int, outcome: nat -> Attempt, n: nat)
    requires n < maxRetries
    requires forall k :: 0 <= k < n ==> outcome(k).ClientFailure?
    ensures FetchFrom(url, path, maxRetries, outcome, 0) == FetchFrom(url, path, maxRetries, outcome, n)
    decreases n
  {
    if n > 0 {
      ReachAttempt(url, path, maxRetries, outcome, n - 1);
    }
  }

  // ---------------------------------------------------------------- resolve

  /** What the DOI service answers: the PDF itself, a link to a PDF found in
      the metadata, or neither. */
  datatype DoiAnswer = DirectPdf | PdfLink(url: string) | NoPdf

  /** `resolve`: a local file is checked, a URL is downloaded, an arXiv id is
      extracted and its PDF downloaded under `arxiv_<id>.pdf`, and a DOI is
      saved as `doi_<doi>.pdf` or followed to its PDF link. Downloads use the
      default bound of three attempts. */
  function Resolved(tempDir: string, input: PaperInput, onDisk: bool, outcome: nat -> Attempt, doiAnswer: DoiAnswer): Result<string> {
    match input.sourceType
    case PdfFile => ResolveLocal(input.sourceValue, onDisk)
    case PdfUrl => FetchFrom(input.sourceValue, OutputPath(tempDir, DefaultFilename(input.sourceValue)), 3, outcome, 0)
    case ArxivId =>
      (match ExtractArxivId(input.sourceValue)
       case Err(e) => Err(e)
       case Ok(id) => FetchFrom("https://arxiv.org/pdf/" + id + ".pdf", OutputPath(tempDir, ArxivFilename(id)), 3, outcome, 0))
    case Doi =>
      match doiAnswer
      case DirectPdf => Ok(OutputPath(tempDir, DoiFilename(input.sourceValue)))
      case PdfLink(link) => FetchFrom(link, OutputPath(tempDir, DefaultFilename(link)), 3, outcome, 0)
      case NoPdf => Err(InputError("Could not resolve DOI to PDF: " + input.sourceValue))
  }

  method Resolve(tempDir: string, input: PaperInput, onDisk: bool, outcome: nat -> Attempt, doiAnswer: DoiAnswer)
    returns (r: Result<string>)
    ensures r == Resolved(tempDir, input, onDisk, outcome, doiAnswer)
    ensures input.sourceType == PdfFile ==> r == ResolveLocal(input.sourceValue, onDisk)
    ensures input.sourceType == PdfUrl ==>
      r == FetchFrom(input.sourceValue, OutputPath(tempDir, DefaultFilename(input.sourceValue)), 3, outcome, 0)
    ensures input.sourceType == ArxivId ==>
      r == match ExtractArxivId(input.sourceValue)
           case Err(e) => Err(e)
           case Ok(id) => FetchFrom("https://arxiv.org/pdf/" + id + ".pdf", OutputPath(tempDir, ArxivFilename(id)), 3, outcome, 0)
    ensures input.sourceType == Doi ==>
      r == match doiAnswer
           case DirectPdf => Ok(OutputPath(tempDir, DoiFilename(input.sourceValue)))
           case PdfLink(link) => FetchFrom(link, OutputPath(tempDir, DefaultFilename(link)), 3, outcome, 0)
           case NoPdf => Err(InputError("Could not resolve DOI to PDF: " + input.sourceValue))
  {
    var value := input.sourceValue;
    match input.sourceType
    case PdfFile =>
      r := ResolveLocal(value, onDisk);
    case PdfUrl =>
      var tries;
      r, tries := FetchUrl(tempDir, value, None, 3, outcome);
    case ArxivId =>
      var id := ExtractArxivId(value);
      if id.Err? {
        return Err(id.error);
      }
      var tries;
      r, tries := FetchUrl(tempDir, "https://arxiv.org/pdf/" + id.value + ".pdf", Some(ArxivFilename(id.value)), 3, outcome);
    case Doi =>
      match doiAnswer
      case DirectPdf =>
        r := Ok(OutputPath(tempDir, DoiFilename(value)));
      case PdfLink(link) =>
        var tries;
        r, tries := FetchUrl(tempDir, link, None, 3, outcome);
      case NoPdf =>
        r := Err(InputError("Could not resolve DOI to PDF: " + value));
  }

  // ---------------------------------------------------------------- examples

  /** Positions that cannot start the prefix are passed over. */
  lemma {:induction false} SearchSkips(s: string, prefix: string, j: nat, n: nat)
    requires j <= n <= |s| && prefix != []
    requires forall k :: j <= k < n ==> !MatchAt(s, prefix, k)
    ensures SearchId(s, prefix, j) == SearchId(s, prefix, n)
    decreases n - j
  {
    if j < n {
      SearchSkips(s, prefix, j + 1, n);
    }
  }

  /** A position holding another character than the prefix's first does not
      start the prefix. */
  lemma {:induction false} NoMatchAt(s: string, prefix: string, k: nat)
    requires prefix != [] && k < |s| && s[k] != prefix[0]
    ensures !MatchAt(s, prefix, k)
  {
    if k + |prefix| <= |s| {
      assert s[k..k + |prefix|][0] == s[k];
    }
  }

  /** `AbsPrefix` and `PdfPrefix` are the fixed parts of the two URL patterns. */
  const AbsPrefix: string := "arxiv.org/abs/"
  const PdfPrefix: string := "arxiv.org/pdf/"

  /** An abs URL, `<host>arxiv.org/abs/<id>`, gives its id when the host has
      no `a` (as `https://` has none). */
  lemma {:induction false} ExtractFromAbsUrl(host: string, id: string)
    requires IsArxivId(id) && 'a' !in host
    ensures ExtractArxivId(host + AbsPrefix + id) == Ok(id)
  {
    var s := host + AbsPrefix + id;
    var n := |host|;
    forall k | 0 <= k < n ensures !MatchAt(s, AbsPrefix, k) {
      assert s[k] == host[k];
      NoMatchAt(s, AbsPrefix, k);
    }
    SearchSkips(s, AbsPrefix, 0, n);
    assert |AbsPrefix| == 14 && s[n..n + 14] == AbsPrefix;
    assert MatchAt(s, AbsPrefix, n);
    assert s[n + 14..] == id;
    IdAtEnd(s, n + 14);
    assert n < |s| && n + |AbsPrefix| <= |s|;
    assert IdEnd(s, n + |AbsPrefix|) == Some(|s|);
    assert s[n + |AbsPrefix|..|s|] == id;
    assert SearchId(s, AbsPrefix, n) == Some(id);
  }

  /** A pdf URL, `<host>arxiv.org/pdf/<id>`, gives its id when the host has
      no `a`: the abs pattern finds nothing, the pdf one finds the id. */
  lemma {:induction false} ExtractFromPdfUrl(host: string, id: string)
    requires IsArxivId(id) && 'a' !in host
    ensures ExtractArxivId(host + PdfPrefix + id) == Ok(id)
  {
    var s := host + PdfPrefix + id;
    var n := |host|;
    NoAbsInPdfUrl(host, id);
    SearchSkips(s, AbsPrefix, 0, |s|);
    forall k | 0 <= k < n ensures !MatchAt(s, PdfPrefix, k) {
      assert s[k] == host[k];
      NoMatchAt(s, PdfPrefix, k);
    }
    SearchSkips(s, PdfPrefix, 0, n);
    assert |PdfPrefix| == 14 && s[n..n + 14] == PdfPrefix;
    assert MatchAt(s, PdfPrefix, n);
    assert s[n + 14..] == id;
    IdAtEnd(s, n + 14);
    assert n < |s| && n + |PdfPrefix| <= |s|;
    assert IdEnd(s, n + |PdfPrefix|) == Some(|s|);
    assert s[n + |PdfPrefix|..|s|] == id;
    assert SearchId(s, PdfPrefix, n) == Some(id);
  }

  /** The abs pattern occurs nowhere in a pdf URL whose host has no `a`. */
  lemma {:induction false} NoAbsInPdfUrl(host: string, id: string)
    requires IsArxivId(id) && 'a' !in host
    ensures forall k :: 0 <= k < |host + PdfPrefix + id| ==> !MatchAt(host + PdfPrefix + id, AbsPrefix, k)
  {
    var s := host + PdfPrefix + id;
    var n := |host|;
    forall k | 0 <= k < |s| ensures !MatchAt(s, AbsPrefix, k) {
      if k < n {
        assert s[k] == host[k];
        NoMatchAt(s, AbsPrefix, k);
      } else if k == n {
        assert s[n + 10] == 'p';
      } else if k < n + 14 {
        assert s[k] == PdfPrefix[k - n] != 'a';
        NoMatchAt(s, AbsPrefix, k);
      } else {
        assert s[k] == id[k - n - 14];
        IdCharacters(id, k - n - 14);
        NoMatchAt(s, AbsPrefix, k);
      }
    }
  }

  /** The examples of the URL forms: an id after `https://arxiv.org/abs/` or
      `https://arxiv.org/pdf/`, with or without a version. */
  lemma {:induction false} ExtractFromUrlExamples()
    ensures ExtractArxivId("https://" + AbsPrefix + "2401.12345") == Ok("2401.12345")
    ensures ExtractArxivId("https://" + PdfPrefix + "2401.12345v2") == Ok("2401.12345v2")
  {
    assert IsArxivId("2401.12345");
    var t := "2401.12345v2";
    assert IsVersion(t[10..]) by {
      assert t[10..] == "v2" && "v2"[1..] == "2";
    }
    assert AllDigits(t[..4]) && AllDigits(t[5..9]) by {
      assert t[..4] == "2401" && t[5..9] == "1234";
    }
    assert IsArxivId(t);
    ExtractFromAbsUrl("https://", "2401.12345");
    ExtractFromPdfUrl("https://", "2401.12345v2");
  }
}
