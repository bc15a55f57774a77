/**
 * The conversation-log converter: strips the red and default-colour terminal escape
 * sequences from a log and wraps it in a LaTeX `lstlisting` environment.
 */
module ConvoToLatex {
  import opened Wrappers
  import opened Text

  /** ESC `[91m`, bright red foreground. */
  const RedMarker: string := "\U{1b}[91m"
  /** ESC `[39m`, default foreground. */
  const ResetMarker: string := "\U{1b}[39m"

  const Begin: string := "\\begin{lstlisting}\n"
  const End: string := "\n\\end{lstlisting}"

  /** The two `replace` calls, red marker first. */
  function Clean(content: string): string
  {
    RemoveAll(RemoveAll(content, RedMarker), ResetMarker)
  }

  /** The text written to the output file. */
  function LatexContent(content: string): (r: string)
    ensures StartsWith(r, Begin) && |r| == |Begin| + |Clean(content)| + |End|
    ensures r[|Begin|..|r| - |End|] == Clean(content) && r[|r| - |End|..] == End
  {
    Begin + Clean(content) + End
  }

  /** A log with neither marker is wrapped unchanged; cleaning never lengthens it. */
  lemma CleanWithoutMarkers(content: string)
    ensures |Clean(content)| <= |content|
    ensures !Contains(content, RedMarker) && !Contains(content, ResetMarker) ==> Clean(content) == content
    ensures Contains(content, RedMarker) ==> |Clean(content)| < |content|
  {
    RemoveAllShortensIffContains(content, RedMarker);
    if !Contains(content, RedMarker) {
      RemoveAllWithoutMarker(content, RedMarker);
      if !Contains(content, ResetMarker) {
        RemoveAllWithoutMarker(content, ResetMarker);
      }
    }
  }

  /** One pass per marker: removing an inner marker can splice a new one together, which stays. */
  lemma SpliceSurvives()
    ensures Clean("\U{1b}[9" + RedMarker + "1m") == RedMarker
  {
    var s := "\U{1b}[9" + RedMarker + "1m";
    assert !StartsWith(s, RedMarker) && !StartsWith(s[1..], RedMarker) && !StartsWith(s[2..], RedMarker) by {
      assert s[2] == '9' && s[3] == '\U{1b}';
      assert s[..5][3] != RedMarker[3];
      assert s[1..][..5][0] != RedMarker[0];
      assert s[2..][..5][0] != RedMarker[0];
    }
    assert StartsWith(s[3..], RedMarker) && s[3..][|RedMarker|..] == "1m";
    assert RemoveAll("1m", RedMarker) == "1m" by {
      assert RemoveAll("m", RedMarker) == "m" by {
        assert RemoveAll("", RedMarker) == "";
      }
    }
    assert s[1..][1..] == s[2..] && s[2..][1..] == s[3..];
    calc {
      RemoveAll(s, RedMarker);
      [s[0]] + RemoveAll(s[1..], RedMarker);
      [s[0]] + ([s[1]] + RemoveAll(s[2..], RedMarker));
      [s[0]] + ([s[1]] + ([s[2]] + RemoveAll(s[3..], RedMarker)));
      [s[0]] + ([s[1]] + ([s[2]] + "1m"));
      RedMarker;
    }
    assert RemoveAll(RedMarker, ResetMarker) == RedMarker by {
      RemoveAllWithoutMarkerSmall();
    }
  }

  lemma RemoveAllWithoutMarkerSmall()
    ensures RemoveAll(RedMarker, ResetMarker) == RedMarker
  {
    assert !Contains(RedMarker, ResetMarker) by {
      assert RedMarker[2] != ResetMarker[2];
      assert !Contains(RedMarker[1..], ResetMarker) by {
        assert |RedMarker[1..]| < |ResetMarker|;
        ShortNoContains(RedMarker[1..], ResetMarker);
      }
    }
    RemoveAllWithoutMarker(RedMarker, ResetMarker);
  }

  lemma {:induction false} ShortNoContains(s: string, sub: string)
    requires |s| < |sub|
    ensures !Contains(s, sub)
    decreases |s|
  {
    if |s| > 0 {
      ShortNoContains(s[1..], sub);
    }
  }

  /**
   * How writing the output file goes: `open(output_file, "w")` fails and the file is left
   * as it was, or `write` fails after `kept` characters reached the emptied file, or all
   * is written.
   */
  datatype Store = Stored | OpenFailed(error: string) | WriteFailed(kept: nat, error: string)

  /**
   * `process_conversation_log`: `read` is the input file's text or the error reading it
   * raised, `store` how writing the output goes. The first result is what the output
   * file holds afterwards (None: left as it was), the second the line printed.
   */
  function ProcessConversationLog(read: Result<string, string>, store: Store, outputFile: string)
    : (r: (Option<string>, string))
    ensures read.Err? ==> r.0.None? && r.1 == "An error occurred: " + read.error
    ensures read.Ok? && store.Stored? ==>
      r.0 == Some(LatexContent(read.value))
      && r.1 == "File processed successfully. Output saved to '" + outputFile + "'"
    ensures read.Ok? && store.OpenFailed? ==> r.0.None? && r.1 == "An error occurred: " + store.error
    ensures read.Ok? && store.WriteFailed? ==>
      r.0.Some? && r.0.value <= LatexContent(read.value)
      && |r.0.value| == (if store.kept < |LatexContent(read.value)| then store.kept else |LatexContent(read.value)|)
      && r.1 == "An error occurred: " + store.error
  {
    match read
    case Err(e) => (None, "An error occurred: " + e)
    case Ok(content) =>
      var latex := LatexContent(content);
      match store
      case Stored => (Some(latex), "File processed successfully. Output saved to '" + outputFile + "'")
      case OpenFailed(e) => (None, "An error occurred: " + e)
      case WriteFailed(n, e) =>
        (Some(latex[..if n < |latex| then n else |latex|]), "An error occurred: " + e)
  }
}
