/** File names built from titles: sanitize_filename, which every script carries an
    identical copy of, and the names derived from it (the ledger, the workbook and
    the audio file). */
module Filenames {

  /** The characters sanitize_filename replaces, in the order its loop visits them.
      The literals '<>:"/\\|?*' and '<>:"/\|?*' of the scripts both denote these nine. */
  const InvalidChars: string := ['<', '>', ':', '"', '/', '\\', '|', '?', '*']

  /** What every invalid character is replaced by. */
  const Replacement: char := '_'

  predicate IsInvalid(c: char) {
    c in InvalidChars
  }

  /** A name holding none of the invalid characters. */
  predicate IsSafe(s: string) {
    forall i :: 0 <= i < |s| ==> !IsInvalid(s[i])
  }

  /** Python's `s.replace(c, d)` for a one-character `c`: every occurrence of `c`
      becomes `d`, nothing else moves. */
  function Replace(s: string, c: char, d: char): (r: string)
    ensures |r| == |s|
    ensures forall i :: 0 <= i < |s| ==> r[i] == (if s[i] == c then d else s[i])
  {
    if s == [] then []
    else Replace(s[..|s| - 1], c, d) + [if s[|s| - 1] == c then d else s[|s| - 1]]
  }

  /** Reference meaning of sanitize_filename: position by position, an invalid
      character becomes '_' and any other character stays. */
  function Sanitized(s: string): string {
    seq(|s|, i requires 0 <= i < |s| => if IsInvalid(s[i]) then Replacement else s[i])
  }

  /** sanitize_filename: one pass of `replace` per invalid character. */
  method SanitizeFilename(filename: string) returns (r: string)
    ensures r == Sanitized(filename)
  {
    r := filename;
    for k := 0 to |InvalidChars|
      invariant |r| == |filename|
      invariant forall i :: 0 <= i < |r| ==>
        r[i] == if filename[i] in InvalidChars[..k] then Replacement else filename[i]
    {
      assert InvalidChars[..k + 1] == InvalidChars[..k] + [InvalidChars[k]];
      r := Replace(r, InvalidChars[k], Replacement);
    }
    assert InvalidChars[..|InvalidChars|] == InvalidChars;
  }

  lemma SanitizedIsSafe(s: string)
    ensures |Sanitized(s)| == |s| && IsSafe(Sanitized(s))
  {
  }

  /** Sanitizing twice is sanitizing once. */
  lemma SanitizedIdempotent(s: string)
    ensures Sanitized(Sanitized(s)) == Sanitized(s)
  {
  }

  /** A title is left as it is exactly when it holds no invalid character. */
  lemma SanitizedFixesSafeNames(s: string)
    ensures Sanitized(s) == s <==> IsSafe(s)
  {
    if Sanitized(s) == s {
      forall i | 0 <= i < |s| ensures !IsInvalid(s[i]) {
        assert Sanitized(s)[i] == s[i];
      }
    }
  }

  /** Two titles that differ only in invalid characters sanitize to the same name,
      so two such playlists share one ledger file. */
  lemma SanitizedConflatesTitles()
    ensures "a:b" != "a?b" && Sanitized("a:b") == Sanitized("a?b") == "a_b"
  {
  }

  /** os.path.join(directory, name), kept as the pair it joins. */
  datatype Path = Path(dir: string, name: string)

  /** The sanitized title followed by an extension. */
  function SafeName(title: string, extension: string): (name: string)
    requires IsSafe(extension)
    ensures IsSafe(name)
    ensures |name| == |title| + |extension| && name[|title|..] == extension
    ensures forall i :: 0 <= i < |title| ==> name[i] == (if IsInvalid(title[i]) then Replacement else title[i])
  {
    Sanitized(title) + extension
  }

  /** get_csv_path: the ledger of a playlist. */
  function CsvPath(directory: string, playlistTitle: string): (p: Path)
    ensures p.dir == directory && IsSafe(p.name)
    ensures |p.name| == |playlistTitle| + 4 && p.name[|playlistTitle|..] == ".csv"
  {
    Path(directory, SafeName(playlistTitle, ".csv"))
  }

  /** get_excel_path: the workbook of a playlist. */
  function ExcelPath(directory: string, playlistTitle: string): (p: Path)
    ensures p.dir == directory && IsSafe(p.name)
    ensures |p.name| == |playlistTitle| + 5 && p.name[|playlistTitle|..] == ".xlsx"
  {
    Path(directory, SafeName(playlistTitle, ".xlsx"))
  }

  /** Two titles select the same ledger in a directory exactly when they sanitize
      to the same name. */
  lemma {:induction false} SameLedgerIff(directory: string, t1: string, t2: string)
    ensures CsvPath(directory, t1) == CsvPath(directory, t2) <==> Sanitized(t1) == Sanitized(t2)
  {
    var n1, n2 := CsvPath(directory, t1).name, CsvPath(directory, t2).name;
    if n1 == n2 {
      assert |t1| == |t2|;
      assert Sanitized(t1) == n1[..|t1|];
      assert Sanitized(t2) == n2[..|t2|];
    }
  }
}
