/**
 * The lab console: the one-item-per-line textareas for a project's lists and
 * the about page's values, the mixtape playlist editor, the default track
 * name taken from an uploaded file, the status badge class and new projects.
 */
module LabManagement {
  import opened Options
  import opened Records

  // ---------------------------------------------------------------------
  // Splitting and joining lines
  // ---------------------------------------------------------------------

  /** The index of the first newline in s, or |s| when it has none. */
  function NewlineAt(s: string, from: nat): (i: nat)
    requires from <= |s|
    ensures from <= i <= |s|
    ensures i < |s| ==> s[i] == '\n'
    ensures forall m :: from <= m < i ==> s[m] != '\n'
    decreases |s| - from
  {
    if from == |s| || s[from] == '\n' then from else NewlineAt(s, from + 1)
  }

  /** `s.join('\n')`: the pieces with one newline between neighbours. */
  function JoinLines(lines: seq<string>): (s: string)
    ensures |lines| == 1 ==> s == lines[0]
  {
    if |lines| == 0 then ""
    else if |lines| == 1 then lines[0]
    else lines[0] + "\n" + JoinLines(lines[1..])
  }

  /**
   * `s.split('\n')`: the maximal newline-free pieces, in order; there is
   * always at least one, and joining them gives back s.
   */
  function SplitLines(s: string): (r: seq<string>)
    ensures |r| >= 1
    ensures forall k :: 0 <= k < |r| ==> '\n' !in r[k]
    ensures JoinLines(r) == s
    decreases |s|
  {
    var i := NewlineAt(s, 0);
    if i == |s| then
      assert s[..i] == s;
      [s]
    else
      var rest := SplitLines(s[i + 1..]);
      var r := [s[..i]] + rest;
      assert r[1..] == rest;
      assert s == s[..i] + "\n" + s[i + 1..];
      r
  }

  /** Splitting a join of newline-free pieces gives the pieces back. */
  lemma {:induction false} SplitJoin(lines: seq<string>)
    requires |lines| >= 1
    requires forall k :: 0 <= k < |lines| ==> '\n' !in lines[k]
    ensures SplitLines(JoinLines(lines)) == lines
    decreases |lines|
  {
    var a := lines[0];
    if |lines| == 1 {
      assert NewlineAt(a, 0) == |a|;
      assert a[..|a|] == a;
    } else {
      var rest := lines[1..];
      var s := JoinLines(lines);
      assert s == a + "\n" + JoinLines(rest);
      assert forall m :: 0 <= m < |a| ==> s[m] == a[m];
      assert forall m :: 0 <= m < |a| ==> s[m] != '\n' by {
        forall m | 0 <= m < |a| ensures s[m] != '\n' {
          assert a[m] in a;
        }
      }
      assert s[|a|] == '\n';
      assert NewlineAt(s, 0) == |a|;
      assert s[..|a|] == a;
      assert s[|a| + 1..] == JoinLines(rest);
      SplitJoin(rest);
    }
  }

  // ---------------------------------------------------------------------
  // Blank lines
  // ---------------------------------------------------------------------

  /** The characters `String.prototype.trim` removes: white space and line terminators. */
  predicate IsJsSpace(c: char)
  {
    c == ' ' || c == '\t' || c == '\n' || c == '\r' || c == '\U{B}' || c == '\U{C}'
    || c == '\U{A0}' || c == '\U{FEFF}' || c == '\U{1680}'
    || ('\U{2000}' <= c <= '\U{200A}')
    || c == '\U{2028}' || c == '\U{2029}' || c == '\U{202F}' || c == '\U{205F}' || c == '\U{3000}'
  }

  /** `line.trim() === ''`: the line holds white space only. */
  predicate IsBlank(line: string)
  {
    forall k :: 0 <= k < |line| ==> IsJsSpace(line[k])
  }

  /** `filter(line => line.trim() !== '')`. */
  function KeepNonBlank(lines: seq<string>): (r: seq<string>)
    ensures |r| <= |lines|
    ensures forall k :: 0 <= k < |r| ==> !IsBlank(r[k]) && r[k] in lines
    decreases |lines|
  {
    if lines == [] then []
    else (if IsBlank(lines[0]) then [] else [lines[0]]) + KeepNonBlank(lines[1..])
  }

  /** The filter keeps every non-blank line and works piecewise, so it keeps their order. */
  lemma {:induction false} KeepNonBlankAppend(xs: seq<string>, ys: seq<string>)
    ensures KeepNonBlank(xs + ys) == KeepNonBlank(xs) + KeepNonBlank(ys)
    decreases |xs|
  {
    if xs == [] {
      assert xs + ys == ys;
    } else {
      assert (xs + ys)[1..] == xs[1..] + ys;
      KeepNonBlankAppend(xs[1..], ys);
    }
  }

  /** A list with no blank line passes the filter untouched. */
  lemma {:induction false} KeepNonBlankAll(lines: seq<string>)
    requires forall k :: 0 <= k < |lines| ==> !IsBlank(lines[k])
    ensures KeepNonBlank(lines) == lines
    decreases |lines|
  {
    if lines != [] {
      KeepNonBlankAll(lines[1..]);
    }
  }

  /** A line that is kept stays in the filtered list. */
  lemma {:induction false} KeepNonBlankKeeps(lines: seq<string>, line: string)
    requires line in lines && !IsBlank(line)
    ensures line in KeepNonBlank(lines)
    decreases |lines|
  {
    if lines[0] != line {
      assert line in lines[1..];
      KeepNonBlankKeeps(lines[1..], line);
    }
  }

  /** `value.split('\n').filter(line => line.trim() !== '')`. */
  function ParseLines(value: string): (r: seq<string>)
    ensures forall k :: 0 <= k < |r| ==> '\n' !in r[k] && !IsBlank(r[k])
    ensures forall line :: line in SplitLines(value) && !IsBlank(line) ==> line in r
  {
    var pieces := SplitLines(value);
    var r := KeepNonBlank(pieces);
    forall line | line in pieces && !IsBlank(line)
      ensures line in r
    {
      KeepNonBlankKeeps(pieces, line);
    }
    r
  }

  /** A textarea showing a list of non-blank, newline-free items parses back to that list. */
  lemma TextareaRoundTrip(lines: seq<string>)
    requires forall k :: 0 <= k < |lines| ==> '\n' !in lines[k] && !IsBlank(lines[k])
    ensures ParseLines(JoinLines(lines)) == lines
  {
    if lines == [] {
      assert SplitLines("") == [""];
      assert IsBlank("");
    } else {
      SplitJoin(lines);
      KeepNonBlankAll(lines);
    }
  }

  // ---------------------------------------------------------------------
  // Editing the list fields
  // ---------------------------------------------------------------------

  /** The project fields edited one item per line. */
  datatype ArrayField = Tags | TechStack | Features

  /** The current value of a list field (tags is always present). */
  function FieldOf(p: Project, f: ArrayField): Option<seq<string>>
  {
    match f
    case Tags => Some(p.tags)
    case TechStack => p.techStack
    case Features => p.features
  }

  /** `updateArrayField`: the field takes the parsed lines, and nothing else of the project changes. */
  function UpdateArrayField(p: Project, f: ArrayField, value: string): (r: Project)
    ensures FieldOf(r, f) == Some(ParseLines(value))
    ensures forall g :: g != f ==> FieldOf(r, g) == FieldOf(p, g)
    ensures r.(tags := p.tags, techStack := p.techStack, features := p.features) == p
  {
    var lines := ParseLines(value);
    match f
    case Tags => p.(tags := lines)
    case TechStack => p.(techStack := Some(lines))
    case Features => p.(features := Some(lines))
  }

  /** Re-submitting the textarea a list field is shown in leaves the project as it was. */
  lemma UpdateArrayFieldUnchanged(p: Project, f: ArrayField)
    requires FieldOf(p, f).Some?
    requires var lines := FieldOf(p, f).value;
      forall k :: 0 <= k < |lines| ==> '\n' !in lines[k] && !IsBlank(lines[k])
    ensures UpdateArrayField(p, f, JoinLines(FieldOf(p, f).value)) == p
  {
    TextareaRoundTrip(FieldOf(p, f).value);
  }

  /** `updateContentValues`: the about values take the parsed lines; the rest of the copy is kept. */
  function UpdateContentValues(c: SiteContent, value: string): (r: SiteContent)
    ensures r.aboutValues == ParseLines(value)
    ensures r.(aboutValues := c.aboutValues) == c
  {
    c.(aboutValues := ParseLines(value))
  }

  lemma UpdateContentValuesUnchanged(c: SiteContent)
    requires forall k :: 0 <= k < |c.aboutValues| ==> '\n' !in c.aboutValues[k] && !IsBlank(c.aboutValues[k])
    ensures UpdateContentValues(c, JoinLines(c.aboutValues)) == c
  {
    TextareaRoundTrip(c.aboutValues);
  }

  // ---------------------------------------------------------------------
  // Timestamps as ids
  // ---------------------------------------------------------------------

  function Digit(d: nat): (c: char)
    requires d < 10
    ensures '0' <= c <= '9'
    ensures DigitValue(c) == d
  {
    "0123456789"[d]
  }

  function DigitValue(c: char): nat
  {
    if '0' <= c <= '9' then (c as int - '0' as int) as nat else 0
  }

  /** `n.toString()` for a whole number: its decimal digits, most significant first. */
  function DecimalString(n: nat): (s: string)
    ensures |s| >= 1
    ensures forall k :: 0 <= k < |s| ==> '0' <= s[k] <= '9'
    ensures n > 0 ==> s[0] != '0'
  {
    if n < 10 then [Digit(n)] else DecimalString(n / 10) + [Digit(n % 10)]
  }

  /** The value a string of decimal digits denotes. */
  function ParseDecimal(s: string): nat
  {
    if s == [] then 0 else ParseDecimal(s[..|s| - 1]) * 10 + DigitValue(s[|s| - 1])
  }

  /** Reading the decimal string of n gives n back, so distinct timestamps give distinct ids. */
  lemma {:induction false} DecimalRoundTrip(n: nat)
    ensures ParseDecimal(DecimalString(n)) == n
  {
    if n < 10 {
      assert DecimalString(n)[..0] == [];
    } else {
      DecimalRoundTrip(n / 10);
      var s := DecimalString(n);
      assert s[..|s| - 1] == DecimalString(n / 10);
    }
  }

  /** The id of a new track: "track_" followed by the timestamp. */
  function TrackId(now: nat): (id: string)
    ensures |id| > 6 && id[..6] == "track_"
    ensures ParseDecimal(id[6..]) == now
  {
    DecimalRoundTrip(now);
    var id := "track_" + DecimalString(now);
    assert id[6..] == DecimalString(now);
    id
  }

  // ---------------------------------------------------------------------
  // The mixtape
  // ---------------------------------------------------------------------

  /**
   * `handleAddSong`: a missing name or url leaves the playlist as it is;
   * otherwise a new song with the entered name and url goes at the end.
   */
  function AddSong(playlist: seq<Song>, name: string, url: string, now: nat): (r: seq<Song>)
    ensures name == "" || url == "" ==> r == playlist
    ensures name != "" && url != "" ==>
      |r| == |playlist| + 1 && r[..|playlist|] == playlist
      && r[|playlist|].name == name && r[|playlist|].url == url
      && r[|playlist|].id == TrackId(now)
  {
    if name == "" || url == "" then playlist
    else
      var r := playlist + [Song(TrackId(now), url, name)];
      assert r[..|playlist|] == playlist;
      r
  }

  /** `handleDeleteSong`: the playlist without the songs carrying the id. */
  function DeleteSong(playlist: seq<Song>, id: string): (r: seq<Song>)
    ensures |r| <= |playlist|
  {
    Without(playlist, SongId, id)
  }

  /** Deleting leaves no song with the id, keeps every other song, and keeps their order. */
  lemma DeleteSongProperties(playlist: seq<Song>, more: seq<Song>, id: string)
    ensures forall k :: 0 <= k < |DeleteSong(playlist, id)| ==> DeleteSong(playlist, id)[k].id != id
    ensures forall s :: s in DeleteSong(playlist, id) <==> s in playlist && s.id != id
    ensures DeleteSong(playlist + more, id) == DeleteSong(playlist, id) + DeleteSong(more, id)
  {
    WithoutMembers(playlist, SongId, id);
    WithoutAppend(playlist, more, SongId, id);
    var r := DeleteSong(playlist, id);
    forall k | 0 <= k < |r|
      ensures r[k].id != id
    {
      assert r[k] in r;
    }
  }

  /** Deleting the id of a song just added, when no other song had it, undoes the add. */
  lemma AddThenDelete(playlist: seq<Song>, name: string, url: string, now: nat)
    requires forall k :: 0 <= k < |playlist| ==> playlist[k].id != TrackId(now)
    ensures DeleteSong(AddSong(playlist, name, url, now), TrackId(now)) == playlist
  {
    WithoutAbsent(playlist, SongId, TrackId(now));
    if name != "" && url != "" {
      var song := Song(TrackId(now), url, name);
      WithoutAppend(playlist, [song], SongId, TrackId(now));
      assert Without([song], SongId, TrackId(now)) == [] by {
        assert [song][1..] == [];
      }
    }
  }

  // ---------------------------------------------------------------------
  // The default track name of an uploaded file
  // ---------------------------------------------------------------------

  /**
   * The file name ends in an extension starting at k: a '.' followed by at
   * least one character, none of them '.' or '/' (the pattern `\.[^/.]+$`).
   */
  predicate ExtSuffix(s: string, k: int)
  {
    0 <= k < |s| - 1 && s[k] == '.'
    && forall m :: k < m < |s| ==> s[m] != '.' && s[m] != '/'
  }

  /** Scanning back from j over extension characters: where the extension starts, if anywhere. */
  function ExtStart(s: string, j: nat): (r: Option<nat>)
    requires j <= |s|
    requires forall m :: j <= m < |s| ==> s[m] != '.' && s[m] != '/'
    ensures r.Some? ==> ExtSuffix(s, r.value)
    ensures r.None? ==> forall k :: !ExtSuffix(s, k)
    decreases j
  {
    if j == 0 then None
    else if s[j - 1] == '/' then
      assert forall k :: ExtSuffix(s, k) ==> k >= j;
      None
    else if s[j - 1] == '.' then
      if j < |s| then Some(j - 1)
      else None
    else ExtStart(s, j - 1)
  }

  /** At most one position starts an extension. */
  lemma ExtSuffixUnique(s: string, k1: int, k2: int)
    requires ExtSuffix(s, k1) && ExtSuffix(s, k2)
    ensures k1 == k2
  {
  }

  /** `name.replace(/\.[^/.]+$/, "")`: drop a final extension, keep a name without one. */
  function StripExtension(fileName: string): (t: string)
    ensures forall k :: ExtSuffix(fileName, k) ==> t == fileName[..k]
    ensures (forall k :: !ExtSuffix(fileName, k)) ==> t == fileName
  {
    match ExtStart(fileName, |fileName|)
    case Some(k) =>
      assert forall k2 :: ExtSuffix(fileName, k2) ==> k2 == k;
      fileName[..k]
    case None => fileName
  }

  /** The mixtape form: the draft name and url. */
  datatype Draft = Draft(name: string, url: string)

  /**
   * The upload's load handler: a non-empty data url becomes the draft url,
   * and the stripped file name becomes the draft name only when no name has
   * been entered; an empty result changes nothing.
   */
  function ApplyUpload(d: Draft, fileName: string, result: string): (r: Draft)
    ensures result == "" ==> r == d
    ensures result != "" ==> r.url == result
    ensures result != "" && d.name != "" ==> r.name == d.name
    ensures result != "" && d.name == "" ==> r.name == StripExtension(fileName)
  {
    if result == "" then d
    else Draft(if d.name == "" then StripExtension(fileName) else d.name, result)
  }

  // ---------------------------------------------------------------------
  // Status badges and new projects
  // ---------------------------------------------------------------------

  const STATUSES: seq<string> := ["LIVE", "MVP", "CONCEPT TESTING", "HACKING IT", "MATURE/EXIT", "DEAD"]
  const DEFAULT_COLOR: string := "bg-gray-500"

  /** `getStatusColor`: the badge class of a status. */
  function StatusColor(status: string): (c: string)
    ensures c == DEFAULT_COLOR <==> status !in STATUSES
  {
    if status == "LIVE" then "bg-green-500 shadow-[0_0_8px_#0f0]"
    else if status == "MVP" then "bg-yellow-500 shadow-[0_0_8px_#eb0]"
    else if status == "CONCEPT TESTING" then "bg-cyan-400 shadow-[0_0_8px_#0ff]"
    else if status == "HACKING IT" then "bg-orange-500 shadow-[0_0_8px_#f90]"
    else if status == "MATURE/EXIT" then "bg-purple-500 shadow-[0_0_8px_#a0f]"
    else if status == "DEAD" then "bg-red-500"
    else DEFAULT_COLOR
  }

  /** Each of the six statuses has a badge class of its own. */
  lemma StatusColorsDistinct(s1: string, s2: string)
    requires s1 in STATUSES && s2 in STATUSES && s1 != s2
    ensures StatusColor(s1) != StatusColor(s2)
  {
  }

  /** The blank project a new entry starts from. */
  const EMPTY_PROJECT: Project := Project(
    "", "", "", Some(""), Some([]), Some([]), [], "https://picsum.photos/600/400", Some([]), "#", "CONCEPT TESTING")

  /** `handleCreateProject`: the blank project with the timestamp as its id. */
  function CreateProject(now: nat): (p: Project)
    ensures p.(id := EMPTY_PROJECT.id) == EMPTY_PROJECT
    ensures ParseDecimal(p.id) == now
    ensures p.id != ""
  {
    DecimalRoundTrip(now);
    EMPTY_PROJECT.(id := DecimalString(now))
  }

  /** Projects created at different times get different ids. */
  lemma CreateProjectDistinct(t1: nat, t2: nat)
    requires t1 != t2
    ensures CreateProject(t1).id != CreateProject(t2).id
  {
  }
}
