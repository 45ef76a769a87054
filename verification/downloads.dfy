/** The download loop of `_download_files`: the file name taken from each
    response's Content-Disposition header, the skip of names already in the
    target folder, and the summary printed afterwards. Fetching and writing
    are outside the model: each URL's response is an input, and the folder is
    the set of names it holds. */
module Downloads {
  import opened Exceptions
  import opened PyStr

  /** What opening one download URL gave: a failure with urllib2's reason
      (URLError), or a reply whose Content-Disposition header may be absent. */
  datatype Response = Unreachable(reason: string) | Reply(disposition: Option<string>)

  /** The header name as the script writes it. */
  const DispositionHeader := "Content-Disposition"

  /** The key a missing header is reported under: the message object looks
      headers up by their lower-cased name, so that is the key of its
      KeyError. */
  const DispositionKey := "content-disposition"

  /** `response.info()["Content-Disposition"].split('=')[1]`. */
  function Filename(response: Response): (r: Result<string>)
    ensures response.Unreachable? ==> r == Raised(UrlError(response.reason))
    ensures response.Reply? && response.disposition.None? ==> r == Raised(KeyError(DispositionKey))
    ensures response.Reply? && response.disposition.Some? ==>
      (r.Ok? <==> '=' in response.disposition.value)
    ensures response.Reply? && response.disposition.Some? && '=' !in response.disposition.value ==>
      r == Raised(IndexError)
    ensures r.Ok? ==> '=' !in r.value
    ensures r.Ok? ==> exists pre, post :: Around(response.disposition.value, pre, r.value, post)
  {
    match response
    case Unreachable(reason) => Raised(UrlError(reason))
    case Reply(None) => Raised(KeyError(DispositionKey))
    case Reply(Some(value)) =>
      var parts := Split(value, '=');
      if |parts| < 2 then Raised(IndexError)
      else
        FilenameSegment(value);
        Ok(parts[1])
  }

  /** The second piece of a split on `=` lies between the first `=` and the
      next one, or the end. */
  lemma FilenameSegment(value: string)
    requires '=' in value
    ensures |Split(value, '=')| >= 2
    ensures exists pre, post :: Around(value, pre, Split(value, '=')[1], post)
  {
    SplitSecond(value, '=');
    var k := FirstIndex(value, '=');
    SegmentAround(value, k, FirstIndex(value[k + 1..], '='), Split(value, '=')[1]);
  }

  /** The text between the first `=`, at `k`, and the next one, `j` places
      further on, is a segment in the sense of `Around`. */
  lemma SegmentAround(value: string, k: nat, j: nat, name: string)
    requires k < |value| && value[k] == '=' && '=' !in value[..k]
    requires j <= |value| - k - 1 && (j < |value| - k - 1 ==> value[k + 1..][j] == '=')
    requires name == value[k + 1..][..j]
    ensures exists pre, post :: Around(value, pre, name, post)
  {
    var rest := value[k + 1..];
    var pre, post := value[..k], rest[j..];
    assert value == pre + value[k..];
    assert value[k..] == [value[k]] + rest;
    assert [value[k]] == "=";
    var head := pre + "=";
    assert value == head + rest;
    assert rest == name + post;
    assert head + (name + post) == head + name + post;
    if j < |rest| {
      assert post[0] == rest[j];
    }
    assert Around(value, pre, name, post);
  }

  /** `name` is the segment of `value` after the first `=`, up to the next
      `=` or the end. */
  predicate Around(value: string, pre: string, name: string, post: string) {
    && value == pre + "=" + name + post
    && '=' !in pre
    && (post == [] || post[0] == '=')
  }

  /** The file names of the responses up to the first one that raises, and
      what that one raised. */
  function Filenames(responses: seq<Response>): (r: (seq<string>, Option<Exception>))
    ensures |r.0| <= |responses|
    ensures forall i :: 0 <= i < |r.0| ==> Filename(responses[i]) == Ok(r.0[i])
    ensures r.1.None? ==> |r.0| == |responses|
    ensures r.1.Some? ==> |r.0| < |responses| && Filename(responses[|r.0|]) == Raised(r.1.value)
    decreases |responses|
  {
    if |responses| == 0 then ([], None)
    else
      var first := Filename(responses[0]);
      if first.Raised? then ([], Some(first.exc))
      else
        var rest := Filenames(responses[1..]);
        assert forall i :: 0 < i < |responses| ==> responses[1..][i - 1] == responses[i];
        ([first.value] + rest.0, rest.1)
  }

  /** The outcome of the download loop: the names saved, in order; the folder
      afterwards; and the exception that ended the loop early, if any. Files
      saved before the exception stay in the folder. */
  datatype Run = Run(saved: seq<string>, folder: set<string>, failure: Option<Exception>)

  predicate NoDuplicates(s: seq<string>) {
    forall i, j :: 0 <= i < j < |s| ==> s[i] != s[j]
  }

  function Elements(s: seq<string>): set<string> {
    set x | x in s
  }

  /** `_download_files` over the responses of its URLs: each name not yet in
      the folder is saved and joins it; a name already there is skipped. */
  function Download(responses: seq<Response>, folder: set<string>): (r: Run)
    ensures r.failure == Filenames(responses).1
    ensures forall x :: x in r.saved <==> x in Filenames(responses).0 && x !in folder
    ensures NoDuplicates(r.saved)
    ensures r.folder == folder + Elements(r.saved)
    decreases |responses|
  {
    if |responses| == 0 then Run([], folder, None)
    else
      match Filename(responses[0])
      case Raised(e) => Run([], folder, Some(e))
      case Ok(name) =>
        if name in folder then Download(responses[1..], folder)
        else
          var rest := Download(responses[1..], folder + {name});
          Run([name] + rest.saved, rest.folder, rest.failure)
  }

  /** Reference for the names a run saves, built from the back: a name is
      saved exactly when it is neither in the folder nor among the names
      before it. */
  function FreshNames(names: seq<string>, folder: set<string>): seq<string>
    decreases |names|
  {
    if |names| == 0 then []
    else
      var init, last := names[..|names| - 1], names[|names| - 1];
      FreshNames(init, folder) + (if last in folder || last in init then [] else [last])
  }

  /** Peeling the first name off the reference: it is kept unless the folder
      has it, and once kept it counts as part of the folder. */
  lemma {:induction false} FreshNamesCons(name: string, rest: seq<string>, folder: set<string>)
    ensures FreshNames([name] + rest, folder) ==
      if name in folder then FreshNames(rest, folder)
      else [name] + FreshNames(rest, folder + {name})
    decreases |rest|
  {
    if |rest| > 0 {
      var init, last := rest[..|rest| - 1], rest[|rest| - 1];
      assert ([name] + rest)[..|rest|] == [name] + init;
      assert ([name] + rest)[|rest|] == last;
      assert last in [name] + init <==> last == name || last in init;
      FreshNamesCons(name, init, folder);
    }
  }

  /** The run saves the fresh names in the order of their first appearance. */
  lemma {:induction false} DownloadInOrder(responses: seq<Response>, folder: set<string>)
    ensures Download(responses, folder).saved == FreshNames(Filenames(responses).0, folder)
    decreases |responses|
  {
    if |responses| > 0 && Filename(responses[0]).Ok? {
      var name := Filename(responses[0]).value;
      var rest := Filenames(responses[1..]).0;
      assert Filenames(responses).0 == [name] + rest;
      FreshNamesCons(name, rest, folder);
      if name in folder {
        DownloadInOrder(responses[1..], folder);
      } else {
        DownloadInOrder(responses[1..], folder + {name});
      }
    }
  }

  /** A second run over the same responses, into the folder the first run
      left, saves nothing and stops where the first one did. */
  lemma DownloadAgain(responses: seq<Response>, folder: set<string>)
    ensures var first := Download(responses, folder);
      Download(responses, first.folder) == Run([], first.folder, first.failure)
  {
  }

  // ---------------------------------------------------------------------
  // The summary printed after the loop

  const NothingNew := "No new files were available."
  const OneNew := "The following new file was downloaded:"
  const ManyPrefix := "The following "
  const ManySuffix := " new files were downloaded:"

  /** The lines printed once every URL has been handled: a notice that
      nothing was new, or a header that counts the saved files followed by
      their paths, one per line. */
  function Summary(paths: seq<string>): (lines: seq<string>)
    ensures |lines| >= 1
    ensures |paths| == 0 <==> lines == [NothingNew]
    ensures |paths| == 1 ==> lines[0] == OneNew
    ensures |paths| > 1 ==> lines[0] == ManyPrefix + Decimal(|paths|) + ManySuffix
    ensures lines[1..] == paths
  {
    if |paths| == 0 then [NothingNew]
    else if |paths| == 1 then [OneNew] + paths
    else [ManyPrefix + Decimal(|paths|) + ManySuffix] + paths
  }

  /** The number of files a summary reports, read back from its header. */
  function ReportedCount(lines: seq<string>): Option<nat>
  {
    if |lines| == 0 then None
    else
      var header := lines[0];
      if header == NothingNew then Some(0)
      else if header == OneNew then Some(1)
      else if |header| > |ManyPrefix| + |ManySuffix|
        && header[..|ManyPrefix|] == ManyPrefix
        && header[|header| - |ManySuffix|..] == ManySuffix
      then
        var digits := header[|ManyPrefix|..|header| - |ManySuffix|];
        if forall i :: 0 <= i < |digits| ==> '0' <= digits[i] <= '9'
        then Some(ParseDecimal(digits))
        else None
      else None
  }

  /** The header of the summary states exactly how many files were saved. */
  lemma SummaryCount(paths: seq<string>)
    ensures ReportedCount(Summary(paths)) == Some(|paths|)
  {
    if |paths| > 1 {
      var n := |paths|;
      var d := Decimal(n);
      var header := ManyPrefix + d + ManySuffix;
      assert header[..|ManyPrefix|] == ManyPrefix;
      assert header[|header| - |ManySuffix|..] == ManySuffix;
      assert header[|ManyPrefix|..|header| - |ManySuffix|] == d;
      assert header != NothingNew by {
        assert header[0] == 'T' && NothingNew[0] == 'N';
      }
      assert header != OneNew by {
        assert header[|ManyPrefix|] == d[0];
        assert OneNew[|ManyPrefix|] == 'n';
      }
      DecimalRoundTrip(n);
    }
  }

  /** Two runs print the same summary only when they saved the same paths. */
  lemma SummaryInjective(paths: seq<string>, others: seq<string>)
    requires Summary(paths) == Summary(others)
    ensures paths == others
  {
    SummaryCount(paths);
    SummaryCount(others);
  }

  // ---------------------------------------------------------------------
  // The whole of `_download_files`

  /** `_download_files`: the loop, then the summary of what it saved. An
      exception from the loop leaves the method before the summary, so
      nothing is printed then. */
  function DownloadFiles(responses: seq<Response>, folder: set<string>): (r: (Run, seq<string>))
    ensures r.0 == Download(responses, folder)
    ensures r.0.failure.None? ==> r.1 == Summary(r.0.saved)
    ensures r.0.failure.Some? ==> r.1 == []
  {
    var run := Download(responses, folder);
    (run, if run.failure.None? then Summary(run.saved) else [])
  }

  /** When every response gives a file name, the printed summary counts
      exactly the names that were not yet in the folder, lists them in order
      of first appearance, and a second call prints that nothing was new. */
  lemma DownloadFilesReport(responses: seq<Response>, folder: set<string>)
    requires forall i :: 0 <= i < |responses| ==> Filename(responses[i]).Ok?
    ensures var (run, lines) := DownloadFiles(responses, folder);
      && ReportedCount(lines) == Some(|FreshNames(Filenames(responses).0, folder)|)
      && lines[1..] == FreshNames(Filenames(responses).0, folder)
      && DownloadFiles(responses, run.folder).1 == [NothingNew]
  {
    var (run, lines) := DownloadFiles(responses, folder);
    DownloadInOrder(responses, folder);
    SummaryCount(run.saved);
    DownloadAgain(responses, folder);
  }
}
