/**
 * The release-notes splicer (scripts/update_changelog.py): CHANGELOG.md is
 * cut at the entries marker, an earlier entry for the same version is taken
 * out, and the new entry is placed directly after the marker.
 *
 * Running git-cliff and reading or writing the file are not modelled: the
 * rendered entry, the current date and the file's text are inputs.
 */
module Changelog {
  import opened Text

  const Marker := "<!-- changelog:entries -->"

  // ---------------------------------------------------------------------------
  // Substrings
  // ---------------------------------------------------------------------------

  /** `p` occurs somewhere in `s` (Python's `p in s`). */
  predicate ContainsText(s: string, p: string)
  {
    IndexFrom(s, p, 0).Some?
  }

  // ---------------------------------------------------------------------------
  // ensure_marker
  // ---------------------------------------------------------------------------

  const MissingMarker := "Missing changelog marker '" + Marker + "'. Make sure CHANGELOG.md follows the expected template."

  /**
   * ensure_marker: the text before and after the first marker, or an error
   * when there is none.
   */
  function EnsureMarker(text: string): (r: Result<(string, string)>)
    ensures r.Err? <==> !ContainsText(text, Marker)
    ensures r.Err? ==> r.error == MissingMarker
    ensures r.Ok? ==> r.value.0 + Marker + r.value.1 == text
    ensures r.Ok? ==> !ContainsText(r.value.0, Marker)
  {
    match IndexFrom(text, Marker, 0)
      case None => Err(MissingMarker)
      case Some(i) =>
        var before, after := text[..i], text[i + |Marker|..];
        assert before + Marker + after == text by {
          assert text[i..i + |Marker|] == Marker;
          assert text == text[..i] + text[i..i + |Marker|] + text[i + |Marker|..];
        }
        assert IndexFrom(before, Marker, 0).None? by {
          forall j | 0 <= j ensures !MatchAt(before, Marker, j) {
            if MatchAt(before, Marker, j) {
              assert before[j..j + |Marker|] == text[j..j + |Marker|];
              assert MatchAt(text, Marker, j);
            }
          }
        }
        Ok((before, after))
  }

  // ---------------------------------------------------------------------------
  // remove_existing_entry
  // ---------------------------------------------------------------------------

  /** Position `i` starts a line: the start of the text or just after a newline (`^` in MULTILINE mode). */
  predicate LineStart(s: string, i: nat)
  {
    i == 0 || (i <= |s| && s[i - 1] == '\n')
  }

  /** A line of `s` starts at `i` with `h`. */
  predicate HeadingAt(s: string, h: string, i: nat)
  {
    LineStart(s, i) && MatchAt(s, h, i)
  }

  /** The first line at or after `from` that starts with `h`. */
  function FirstHeading(s: string, h: string, from: nat): (r: Option<nat>)
    ensures r.None? ==> forall i :: from <= i ==> !HeadingAt(s, h, i)
    ensures r.Some? ==> from <= r.value && HeadingAt(s, h, r.value)
    ensures r.Some? ==> forall i :: from <= i < r.value ==> !HeadingAt(s, h, i)
    decreases |s| - from
  {
    if from + |h| > |s| then None
    else if HeadingAt(s, h, from) then Some(from)
    else FirstHeading(s, h, from + 1)
  }

  const AnyHeading := "## ["

  /** The heading line an entry for `version` opens with. */
  function EntryHeading(version: string): string
  {
    "## [" + version + "]"
  }

  /** Where a section that runs from `from` ends: the next "## [" line, or the end of the text. */
  function SectionEnd(s: string, from: nat): (j: nat)
    requires from <= |s|
    ensures from <= j <= |s|
    ensures j == |s| || HeadingAt(s, AnyHeading, j)
    ensures forall i :: from <= i < j ==> !HeadingAt(s, AnyHeading, i)
  {
    match FirstHeading(s, AnyHeading, from)
      case None => |s|
      case Some(j) => j
  }

  /**
   * Cut the first section whose heading line starts with `h`, from that line
   * up to the next "## [" line or the end, then drop the leading newlines of
   * what is left; without such a section the text is returned unchanged.
   */
  function RemoveSection(body: string, h: string): (r: string)
    ensures FirstHeading(body, h, 0).None? ==> r == body
    ensures FirstHeading(body, h, 0).Some? ==> |r| + |h| <= |body| && (r == [] || r[0] != '\n')
  {
    match FirstHeading(body, h, 0)
      case None => body
      case Some(i) =>
        var j := SectionEnd(body, i + |h|);
        LStripChar(body[..i] + body[j..], '\n')
  }

  /** remove_existing_entry: the section is the one headed "## [<version>]". */
  function RemoveExistingEntry(body: string, version: string): (r: string)
    ensures FirstHeading(body, EntryHeading(version), 0).None? ==> r == body
    ensures FirstHeading(body, EntryHeading(version), 0).Some? ==> |r| + |version| + 5 <= |body|
  {
    RemoveSection(body, EntryHeading(version))
  }

  /**
   * When a section is removed it is the first one with that heading: it
   * opens with the heading, holds no other "## [" line, and is followed by
   * the next one or the end of the text.
   */
  lemma RemovedSection(body: string, h: string, i: nat)
    requires '\n' !in h
    requires FirstHeading(body, h, 0) == Some(i)
    ensures i + |h| <= |body|
    ensures HeadingAt(body, h, i)
    ensures forall k :: 0 <= k < i ==> !HeadingAt(body, h, k)
    ensures forall k :: i < k < SectionEnd(body, i + |h|) ==> !HeadingAt(body, AnyHeading, k)
    ensures SectionEnd(body, i + |h|) == |body| || HeadingAt(body, AnyHeading, SectionEnd(body, i + |h|))
  {
    forall k | i < k < i + |h| ensures !HeadingAt(body, AnyHeading, k) {
      // inside the heading line there is no newline to start a new line after
      assert body[i..i + |h|] == h;
      assert body[k - 1] == h[k - 1 - i];
    }
  }

  /** A version without newlines gives a heading without newlines. */
  lemma EntryHeadingOneLine(version: string)
    requires '\n' !in version
    ensures '\n' !in EntryHeading(version)
  {
    var h := EntryHeading(version);
    forall m | 0 <= m < |h| ensures h[m] != '\n' {
      if 4 <= m < 4 + |version| {
        assert h[m] == version[m - 4];
      }
    }
  }

  // ---------------------------------------------------------------------------
  // build_changelog
  // ---------------------------------------------------------------------------

  /** The lines build_changelog joins. */
  function ChangelogParts(prefix: string, entry: string, suffix: string): (parts: seq<string>)
  {
    var rest := LStripChar(suffix, '\n');
    [PyRStrip(prefix), "", Marker, "", PyStrip(entry)] + (if rest != "" then ["", PyRStrip(rest)] else [])
  }

  /** build_changelog: the parts joined by newlines, plus a final newline. */
  function BuildChangelog(prefix: string, entry: string, suffix: string): (r: string)
    ensures r != [] && r[|r| - 1] == '\n'
  {
    Join(ChangelogParts(prefix, entry, suffix), '\n') + "\n"
  }

  /** What build_changelog writes after the marker: a blank line, the entry, the rest and a final newline. */
  function AfterMarker(entry: string, rest: string): (r: string)
    ensures HasPrefix(r, "\n\n" + PyStrip(entry)) && r[|r| - 1] == '\n'
  {
    "\n\n" + PyStrip(entry) + (if rest != "" then "\n\n" + PyRStrip(rest) else "") + "\n"
  }

  /** The prefix, blank, marker and blank lines joined in front of the remaining lines. */
  lemma JoinHead(p: string, last: seq<string>)
    requires last != []
    ensures Join([p, "", Marker, ""] + last, '\n') == p + "\n\n" + Marker + "\n\n" + Join(last, '\n')
  {
    var j := Join(last, '\n');
    assert [p, "", Marker, ""] + last == [p] + ([""] + ([Marker] + ([""] + last)));
    JoinCons("", last, '\n');
    JoinCons(Marker, [""] + last, '\n');
    JoinCons("", [Marker] + ([""] + last), '\n');
    JoinCons(p, [""] + ([Marker] + ([""] + last)), '\n');
    assert p + "\n" + ("" + "\n" + (Marker + "\n" + ("" + "\n" + j))) == p + "\n\n" + Marker + "\n\n" + j;
  }

  /** The entry line and, when there is more, a blank line and the rest, joined. */
  lemma JoinTail(e: string, more: bool, r: string)
    ensures Join([e] + (if more then ["", r] else []), '\n') == e + (if more then "\n\n" + r else "")
  {
    if more {
      assert [e] + ["", r] == [e] + ([""] + [r]);
      JoinCons("", [r], '\n');
      JoinCons(e, [""] + [r], '\n');
    }
  }

  /** The five or seven lines of a changelog, joined, over abstract line texts. */
  lemma JoinLayout(p: string, e: string, more: bool, r: string)
    ensures Join([p, "", Marker, "", e] + (if more then ["", r] else []), '\n') + "\n" ==
              p + "\n\n" + Marker + ("\n\n" + e + (if more then "\n\n" + r else "") + "\n")
  {
    var last := [e] + (if more then ["", r] else []);
    var tail := if more then "\n\n" + r else "";
    assert [p, "", Marker, "", e] + (if more then ["", r] else []) == [p, "", Marker, ""] + last;
    JoinHead(p, last);
    JoinTail(e, more, r);
    assert p + "\n\n" + Marker + "\n\n" + (e + tail) + "\n" == p + "\n\n" + Marker + ("\n\n" + e + tail + "\n");
  }

  /**
   * The joined text written out: the prefix without trailing whitespace, a
   * blank line, the marker, then a blank line, the stripped entry and, when
   * the newline-stripped suffix is not empty, a blank line and that suffix
   * without trailing whitespace.
   */
  lemma BuildChangelogText(prefix: string, entry: string, suffix: string)
    ensures BuildChangelog(prefix, entry, suffix) ==
              PyRStrip(prefix) + "\n\n" + Marker + AfterMarker(entry, LStripChar(suffix, '\n'))
  {
    var rest := LStripChar(suffix, '\n');
    JoinLayout(PyRStrip(prefix), PyStrip(entry), rest != "", PyRStrip(rest));
  }

  /** The marker does not occur in `a + "\n\n" + Marker + b` before the one placed there, when `a` has none. */
  lemma MarkerFirst(a: string, b: string)
    requires !ContainsText(a, Marker)
    ensures IndexFrom(a + "\n\n" + Marker + b, Marker, 0) == Some(|a| + 2)
  {
    var t := a + "\n\n" + Marker + b;
    MarkerOneLine();
    assert MatchAt(t, Marker, |a| + 2) by {
      assert t[|a| + 2..|a| + 2 + |Marker|] == Marker;
    }
    forall j | 0 <= j < |a| + 2 ensures !MatchAt(t, Marker, j) {
      if j + |Marker| <= |a| {
        assert t[j..j + |Marker|] == a[j..j + |Marker|];
        assert !MatchAt(a, Marker, j);
      } else {
        // the occurrence would cover one of the two newlines
        NoMarkerOver(t, j, if j <= |a| then |a| else |a| + 1);
      }
    }
    IndexFromFirst(t, Marker, |a| + 2);
  }

  /** The marker cannot occur at `j` when a newline lies where it would be. */
  lemma NoMarkerOver(t: string, j: nat, k: nat)
    requires j <= k < |t| && k < j + |Marker| && t[k] == '\n'
    ensures !MatchAt(t, Marker, j)
  {
    MarkerOneLine();
    assert Marker[k - j] != t[k];
    if j + |Marker| <= |t| {
      assert t[j..j + |Marker|][k - j] == t[k];
    }
  }

  lemma MarkerOneLine()
    ensures forall m :: 0 <= m < |Marker| ==> Marker[m] != '\n'
  {
  }

  /** IndexFrom returns the first occurrence. */
  lemma IndexFromFirst(s: string, p: string, i: nat)
    requires MatchAt(s, p, i) && forall j :: 0 <= j < i ==> !MatchAt(s, p, j)
    ensures IndexFrom(s, p, 0) == Some(i)
  {
    var r := IndexFrom(s, p, 0);
    assert r.Some?;
    if r.value < i {
    } else if r.value > i {
    }
  }

  /** ensure_marker on a text where a blank line precedes the marker and no marker comes earlier. */
  lemma EnsureMarkerAfterBlank(a: string, b: string)
    requires !ContainsText(a, Marker)
    ensures EnsureMarker(a + "\n\n" + Marker + b) == Ok((a + "\n\n", b))
  {
    var t := a + "\n\n" + Marker + b;
    MarkerFirst(a, b);
    assert t[..|a| + 2] == a + "\n\n";
    assert t[|a| + 2 + |Marker|..] == b;
  }

  /**
   * Reading the marker back out of a built changelog gives the trimmed prefix
   * with its blank line, and everything after the marker, when the prefix has
   * no marker of its own.
   */
  lemma EnsureMarkerOfBuilt(prefix: string, entry: string, suffix: string)
    requires !ContainsText(PyRStrip(prefix), Marker)
    ensures EnsureMarker(BuildChangelog(prefix, entry, suffix)) ==
              Ok((PyRStrip(prefix) + "\n\n", AfterMarker(entry, LStripChar(suffix, '\n'))))
  {
    BuildChangelogText(prefix, entry, suffix);
    EnsureMarkerAfterBlank(PyRStrip(prefix), AfterMarker(entry, LStripChar(suffix, '\n')));
  }

  // ---------------------------------------------------------------------------
  // update_changelog and the placeholder entry
  // ---------------------------------------------------------------------------

  /** update_changelog on the file's text: split at the marker, drop the old entry, rebuild. */
  function UpdateChangelog(current: string, version: string, entry: string): (r: Result<string>)
    ensures r.Err? <==> !ContainsText(current, Marker)
  {
    match EnsureMarker(current)
      case Err(e) => Err(e)
      case Ok((before, after)) => Ok(BuildChangelog(before, entry, RemoveExistingEntry(after, version)))
  }

  /**
   * After an update the new entry sits directly after the marker, followed by
   * what was after the marker minus the first earlier entry for the version.
   */
  lemma UpdatePlacesEntryAfterMarker(current: string, version: string, entry: string)
    requires ContainsText(current, Marker)
    ensures var (before, after) := EnsureMarker(current).value;
            UpdateChangelog(current, version, entry) ==
              Ok(PyRStrip(before) + "\n\n" + Marker + AfterMarker(entry, LStripChar(RemoveExistingEntry(after, version), '\n')))
  {
    var (before, after) := EnsureMarker(current).value;
    BuildChangelogText(before, entry, RemoveExistingEntry(after, version));
  }

  /** Trimming the end of a text without the marker leaves no marker. */
  lemma RStripKeepsNoMarker(s: string)
    requires !ContainsText(s, Marker)
    ensures !ContainsText(PyRStrip(s), Marker)
  {
    var r := PyRStrip(s);
    forall j | 0 <= j ensures !MatchAt(r, Marker, j) {
      if MatchAt(r, Marker, j) {
        assert r[j..j + |Marker|] == s[j..j + |Marker|];
        assert MatchAt(s, Marker, j);
      }
    }
  }

  /**
   * An updated changelog still has the marker first: reading it back splits
   * it into the trimmed text before the old marker and the new entry section.
   */
  lemma UpdateKeepsMarkerFirst(current: string, version: string, entry: string)
    requires ContainsText(current, Marker)
    ensures UpdateChangelog(current, version, entry).Ok?
    ensures var (before, after) := EnsureMarker(current).value;
            EnsureMarker(UpdateChangelog(current, version, entry).value) ==
              Ok((PyRStrip(before) + "\n\n", AfterMarker(entry, LStripChar(RemoveExistingEntry(after, version), '\n'))))
  {
    var (before, after) := EnsureMarker(current).value;
    var built := BuildChangelog(before, entry, RemoveExistingEntry(after, version));
    assert UpdateChangelog(current, version, entry) == Ok(built);
    RStripKeepsNoMarker(before);
    EnsureMarkerOfBuilt(before, entry, RemoveExistingEntry(after, version));
  }

  const NoChangesLine := "- No notable changes were recorded for this release.\n"

  /** main: empty git-cliff output is replaced by a dated placeholder entry. */
  function ReleaseEntry(rendered: string, version: string, today: string): (r: string)
    ensures rendered != "" ==> r == rendered
    ensures rendered == "" ==> HeadingAt(r, EntryHeading(version), 0)
  {
    if rendered != "" then rendered
    else
      var r := "## [" + version + "] - " + today + "\n\n" + NoChangesLine;
      assert r[..|EntryHeading(version)|] == EntryHeading(version);
      r
  }
}
