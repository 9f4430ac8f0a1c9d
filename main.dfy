/** The run driver (main.py): the state file that holds the worklist of
    repository names between runs, the wrapper that keeps one repository's
    failure from stopping the run, and the load / dispatch / delete sequence.

    The file system is a `FileSystem` object holding a map from path to file
    text; the thread pool is a sequential loop, one dispatch per name in
    worklist order. */
module Driver {
  import opened Outcomes
  import opened Api
  import opened Processor

  // ---------------------------------------------------------------------
  // Text as Python's `open(..., "r")`, `for line in f` and `str.strip` see it
  // ---------------------------------------------------------------------

  /** The characters `str.strip()` removes: those whose Unicode property makes
      `str.isspace()` true. */
  predicate IsPySpace(c: char)
  {
    || c == ' '
    || ('\t' <= c <= '\r')
    || ('\U{1c}' <= c <= '\U{1f}')
    || c == '\U{85}' || c == '\U{a0}' || c == '\U{1680}'
    || ('\U{2000}' <= c <= '\U{200a}')
    || c == '\U{2028}' || c == '\U{2029}' || c == '\U{202f}' || c == '\U{205f}' || c == '\U{3000}'
  }

  /** `s.lstrip()`: the longest suffix of `s` that does not start with whitespace. */
  function StripLeading(s: string): (r: string)
    ensures |r| <= |s| && r == s[|s| - |r|..]
    ensures forall i :: 0 <= i < |s| - |r| ==> IsPySpace(s[i])
    ensures r != [] ==> !IsPySpace(r[0])
  {
    if s != [] && IsPySpace(s[0]) then StripLeading(s[1..]) else s
  }

  /** `s.rstrip()`: the longest prefix of `s` that does not end with whitespace. */
  function StripTrailing(s: string): (r: string)
    ensures |r| <= |s| && r == s[..|r|]
    ensures forall i :: |r| <= i < |s| ==> IsPySpace(s[i])
    ensures r != [] ==> !IsPySpace(r[|r| - 1])
  {
    if s != [] && IsPySpace(s[|s| - 1]) then StripTrailing(s[..|s| - 1]) else s
  }

  /** `r` is `s` with the whitespace at both ends removed: a contiguous piece
      of `s`, everything around it whitespace, and neither end whitespace. */
  ghost predicate TrimmedFrom(r: string, s: string)
  {
    && (r == [] || (!IsPySpace(r[0]) && !IsPySpace(r[|r| - 1])))
    && exists i :: TrimmedAt(r, s, i)
  }

  /** `r` sits at offset `i` of `s` with only whitespace around it. */
  ghost predicate TrimmedAt(r: string, s: string, i: int)
  {
    && 0 <= i && i + |r| <= |s| && r == s[i..i + |r|]
    && (forall j :: 0 <= j < i ==> IsPySpace(s[j]))
    && (forall j :: i + |r| <= j < |s| ==> IsPySpace(s[j]))
  }

  /** `s.strip()`. */
  function Strip(s: string): (r: string)
    ensures TrimmedFrom(r, s)
  {
    var l := StripLeading(s);
    var r := StripTrailing(l);
    TrimmedPieces(s, l, r);
    r
  }

  /** A suffix after leading whitespace, cut before trailing whitespace. */
  lemma TrimmedPieces(s: string, l: string, r: string)
    requires |l| <= |s| && l == s[|s| - |l|..]
    requires forall i :: 0 <= i < |s| - |l| ==> IsPySpace(s[i])
    requires |r| <= |l| && r == l[..|r|]
    requires forall i :: |r| <= i < |l| ==> IsPySpace(l[i])
    ensures TrimmedAt(r, s, |s| - |l|)
    ensures r != [] ==> r[0] == l[0]
  {
    var i := |s| - |l|;
    assert r == s[i..i + |r|];
    forall j | i + |r| <= j < |s|
      ensures IsPySpace(s[j])
    {
      assert s[j] == l[j - i];
    }
  }

  /** Universal newline translation of text mode: `"\r\n"` and a lone `"\r"`
      both read as `"\n"`. */
  function TranslateNewlines(t: string): (r: string)
    ensures '\r' !in r
    ensures '\r' !in t ==> r == t
  {
    if t == [] then []
    else if t[0] == '\r' then
      if |t| > 1 && t[1] == '\n' then "\n" + TranslateNewlines(t[2..]) else "\n" + TranslateNewlines(t[1..])
    else [t[0]] + TranslateNewlines(t[1..])
  }

  /** The first `"\r"` of a text reads as `"\n"`, taking a `"\n"` right after
      it along; the text before it is kept and the rest is translated. */
  lemma {:induction false} TranslateCarriageReturn(a: string, b: string)
    requires '\r' !in a
    ensures TranslateNewlines(a + "\r" + b)
         == a + "\n" + TranslateNewlines(if b != [] && b[0] == '\n' then b[1..] else b)
  {
    if a == [] {
      assert a + "\r" + b == "\r" + b;
      if b != [] && b[0] == '\n' {
        assert ("\r" + b)[2..] == b[1..];
      } else {
        assert ("\r" + b)[1..] == b;
      }
    } else {
      assert (a + "\r" + b)[1..] == a[1..] + "\r" + b;
      TranslateCarriageReturn(a[1..], b);
      assert a == [a[0]] + a[1..];
    }
  }

  /** The length of the first line of `t`, its `"\n"` included. */
  function LineLength(t: string): (n: nat)
    requires t != []
    ensures 1 <= n <= |t|
    ensures forall j :: 0 <= j < n - 1 ==> t[j] != '\n'
    ensures n < |t| ==> t[n - 1] == '\n'
  {
    if t[0] == '\n' || |t| == 1 then 1 else 1 + LineLength(t[1..])
  }

  function Flatten(lines: seq<string>): string
  {
    if lines == [] then [] else lines[0] + Flatten(lines[1..])
  }

  /** `for line in f`: the lines of `t`, each ending in its `"\n"` except
      possibly the last one. */
  function FileLines(t: string): (lines: seq<string>)
    ensures Flatten(lines) == t
    ensures forall k :: 0 <= k < |lines| ==> lines[k] != []
    ensures forall k, j :: 0 <= k < |lines| && 0 <= j < |lines[k]| - 1 ==> lines[k][j] != '\n'
    ensures forall k :: 0 <= k < |lines| - 1 ==> lines[k][|lines[k]| - 1] == '\n'
    decreases |t|
  {
    if t == [] then []
    else
      var n := LineLength(t);
      var rest := FileLines(t[n..]);
      ConsLine(t, n, rest);
      [t[..n]] + rest
  }

  /** The first line of `t`, `n` characters long, put before the lines of the
      rest of `t`. */
  lemma ConsLine(t: string, n: nat, rest: seq<string>)
    requires 1 <= n <= |t|
    requires forall j :: 0 <= j < n - 1 ==> t[j] != '\n'
    requires n < |t| ==> t[n - 1] == '\n'
    requires Flatten(rest) == t[n..]
    requires forall k :: 0 <= k < |rest| ==> rest[k] != []
    requires forall k, j :: 0 <= k < |rest| && 0 <= j < |rest[k]| - 1 ==> rest[k][j] != '\n'
    requires forall k :: 0 <= k < |rest| - 1 ==> rest[k][|rest[k]| - 1] == '\n'
    ensures Flatten([t[..n]] + rest) == t
    ensures forall k :: 0 <= k < |rest| + 1 ==> ([t[..n]] + rest)[k] != []
    ensures forall k, j :: 0 <= k < |rest| + 1 && 0 <= j < |([t[..n]] + rest)[k]| - 1 ==> ([t[..n]] + rest)[k][j] != '\n'
    ensures forall k :: 0 <= k < |rest| ==> ([t[..n]] + rest)[k][|([t[..n]] + rest)[k]| - 1] == '\n'
  {
    var lines := [t[..n]] + rest;
    assert lines[0] == t[..n] && lines[1..] == rest;
    assert t == t[..n] + t[n..];
    if rest != [] {
      assert Flatten(rest) == rest[0] + Flatten(rest[1..]);
      assert n < |t|;
    }
    forall k | 1 <= k < |lines|
      ensures lines[k] == rest[k - 1]
    {
    }
  }

  /** `[f(line) for line in lines if f(line)]`. */
  function NonEmptyImages(lines: seq<string>, f: string -> string): seq<string>
  {
    if lines == [] then []
    else (if f(lines[0]) != [] then [f(lines[0])] else []) + NonEmptyImages(lines[1..], f)
  }

  /** `[line.strip() for line in lines if line.strip()]`. */
  function StrippedNonEmpty(lines: seq<string>): seq<string>
  {
    NonEmptyImages(lines, Strip)
  }

  /** The worklist read back from a state file's text. */
  function ParseStateFile(text: string): seq<string>
  {
    StrippedNonEmpty(FileLines(TranslateNewlines(text)))
  }

  /** The text `for repo_name in repo_names: f.write(f"{repo_name}\n")` leaves. */
  function SerializeStateFile(names: seq<string>): string
  {
    if names == [] then [] else names[0] + "\n" + SerializeStateFile(names[1..])
  }

  /** A name that survives a write and a read unchanged. */
  predicate Clean(name: string)
  {
    && name != []
    && !IsPySpace(name[0])
    && !IsPySpace(name[|name| - 1])
    && '\n' !in name
    && '\r' !in name
  }

  lemma {:induction false} SerializeAppend(a: seq<string>, b: seq<string>)
    ensures SerializeStateFile(a + b) == SerializeStateFile(a) + SerializeStateFile(b)
  {
    if a != [] {
      assert (a + b)[1..] == a[1..] + b;
      SerializeAppend(a[1..], b);
    } else {
      assert a + b == b;
    }
  }

  lemma {:induction false} FlattenHasNoCR(lines: seq<string>)
    requires '\r' !in Flatten(lines)
    ensures forall k :: 0 <= k < |lines| ==> '\r' !in lines[k]
  {
    if lines != [] {
      FlattenHasNoCR(lines[1..]);
      forall k | 0 <= k < |lines|
        ensures '\r' !in lines[k]
      {
        if k > 0 {
          assert lines[k] == lines[1..][k - 1];
        }
      }
    }
  }

  lemma {:induction false} SerializedHasNoCR(names: seq<string>)
    requires forall i :: 0 <= i < |names| ==> Clean(names[i])
    ensures '\r' !in SerializeStateFile(names)
  {
    if names != [] {
      SerializedHasNoCR(names[1..]);
    }
  }

  lemma {:induction false} LinesOfSerialized(names: seq<string>)
    requires forall i :: 0 <= i < |names| ==> Clean(names[i])
    ensures |FileLines(SerializeStateFile(names))| == |names|
    ensures forall i :: 0 <= i < |names| ==> FileLines(SerializeStateFile(names))[i] == names[i] + "\n"
  {
    if names != [] {
      var tail := names[1..];
      assert forall i :: 0 <= i < |tail| ==> tail[i] == names[i + 1];
      LinesOfSerialized(tail);
      FirstLineOfSerialized(names);
      var rest := FileLines(SerializeStateFile(tail));
      assert FileLines(SerializeStateFile(names)) == [names[0] + "\n"] + rest;
    }
  }

  /** Serialized names are read back one line per name, the first first. */
  lemma FirstLineOfSerialized(names: seq<string>)
    requires names != [] && Clean(names[0])
    ensures FileLines(SerializeStateFile(names)) == [names[0] + "\n"] + FileLines(SerializeStateFile(names[1..]))
  {
    var n, rest := names[0], SerializeStateFile(names[1..]);
    var t := SerializeStateFile(names);
    assert t == n + "\n" + rest;
    LineLengthOfLine(n, rest);
    assert t[..|n| + 1] == n + "\n";
    assert t[|n| + 1..] == rest;
  }

  /** The first line of `n + "\n" + rest` is `n + "\n"` when `n` holds no
      newline. */
  lemma {:induction false} LineLengthOfLine(n: string, rest: string)
    requires '\n' !in n
    ensures LineLength(n + "\n" + rest) == |n| + 1
  {
    if n != [] {
      assert (n + "\n" + rest)[1..] == n[1..] + "\n" + rest;
      LineLengthOfLine(n[1..], rest);
    }
  }

  /** A clean name written as a line strips back to itself. */
  lemma StripLineOfClean(name: string)
    requires Clean(name)
    ensures Strip(name + "\n") == name
  {
    var s := name + "\n";
    assert StripLeading(s) == s;
    assert s[..|s| - 1] == name;
    assert StripTrailing(name) == name;
  }

  /** Lines whose images are the given non-empty names keep exactly those names. */
  lemma {:induction false} NonEmptyImagesOf(names: seq<string>, lines: seq<string>, f: string -> string)
    requires |lines| == |names|
    requires forall i :: 0 <= i < |names| ==> names[i] != [] && f(lines[i]) == names[i]
    ensures NonEmptyImages(lines, f) == names
  {
    if names != [] {
      NonEmptyImagesOf(names[1..], lines[1..], f);
    }
  }

  lemma StrippedNonEmptyOfLines(names: seq<string>, lines: seq<string>)
    requires forall i :: 0 <= i < |names| ==> Clean(names[i])
    requires |lines| == |names|
    requires forall i :: 0 <= i < |names| ==> lines[i] == names[i] + "\n"
    ensures StrippedNonEmpty(lines) == names
  {
    forall i | 0 <= i < |names|
      ensures names[i] != [] && Strip(lines[i]) == names[i]
    {
      StripLineOfClean(names[i]);
    }
    NonEmptyImagesOf(names, lines, Strip);
  }

  /** Writing a worklist of clean names and reading it back gives the same
      worklist. */
  lemma StateFileRoundTrip(names: seq<string>)
    requires forall i :: 0 <= i < |names| ==> Clean(names[i])
    ensures ParseStateFile(SerializeStateFile(names)) == names
  {
    SerializedHasNoCR(names);
    LinesOfSerialized(names);
    StrippedNonEmptyOfLines(names, FileLines(SerializeStateFile(names)));
  }

  /** A line as `for line in f` yields it from translated text: no carriage
      return, and no newline before its last character. */
  ghost predicate TextLine(line: string)
  {
    && '\r' !in line
    && forall j :: 0 <= j < |line| - 1 ==> line[j] != '\n'
  }

  /** One stripped line of translated text: a clean name, or empty. */
  lemma StripOfLineIsClean(line: string)
    requires TextLine(line)
    ensures Strip(line) == [] || Clean(Strip(line))
  {
    var s := Strip(line);
    if s != [] {
      var i :| TrimmedAt(s, line, i);
      CleanPiece(s, line, i);
    }
  }

  /** A non-empty piece of a text line with whitespace only around it, and
      neither end whitespace, is a clean name. */
  lemma CleanPiece(s: string, line: string, i: int)
    requires TextLine(line)
    requires s != [] && !IsPySpace(s[0]) && !IsPySpace(s[|s| - 1])
    requires TrimmedAt(s, line, i)
    ensures Clean(s)
  {
    forall j | 0 <= j < |s|
      ensures s[j] != '\n' && s[j] != '\r'
    {
      assert s[j] == line[i + j];
      if i + j == |line| - 1 {
        assert j == |s| - 1;
      }
    }
  }

  /** Images that are each empty or clean leave only clean names. */
  lemma {:induction false} NonEmptyImagesClean(lines: seq<string>, f: string -> string)
    requires forall k :: 0 <= k < |lines| ==> f(lines[k]) == [] || Clean(f(lines[k]))
    ensures forall i :: 0 <= i < |NonEmptyImages(lines, f)| ==> Clean(NonEmptyImages(lines, f)[i])
  {
    if lines != [] {
      var tail := lines[1..];
      assert forall k :: 0 <= k < |tail| ==> tail[k] == lines[k + 1];
      NonEmptyImagesClean(tail, f);
      var head := if f(lines[0]) != [] then [f(lines[0])] else [];
      var rest := NonEmptyImages(tail, f);
      assert NonEmptyImages(lines, f) == head + rest;
      forall i | 0 <= i < |head + rest|
        ensures Clean((head + rest)[i])
      {
        if i >= |head| {
          assert (head + rest)[i] == rest[i - |head|];
        }
      }
    }
  }

  lemma StrippedNonEmptyIsClean(lines: seq<string>)
    requires forall k :: 0 <= k < |lines| ==> TextLine(lines[k])
    ensures forall i :: 0 <= i < |StrippedNonEmpty(lines)| ==> Clean(StrippedNonEmpty(lines)[i])
  {
    forall k | 0 <= k < |lines|
      ensures Strip(lines[k]) == [] || Clean(Strip(lines[k]))
    {
      StripOfLineIsClean(lines[k]);
    }
    NonEmptyImagesClean(lines, Strip);
  }

  /** Every name read from any state file is clean. */
  lemma ParsedNamesAreClean(text: string)
    ensures forall i :: 0 <= i < |ParseStateFile(text)| ==> Clean(ParseStateFile(text)[i])
  {
    var lines := FileLines(TranslateNewlines(text));
    FlattenHasNoCR(lines);
    assert forall k :: 0 <= k < |lines| ==> TextLine(lines[k]);
    StrippedNonEmptyIsClean(lines);
  }

  /** Rewriting a worklist that was read from a state file and reading it
      again changes nothing. */
  lemma ReparseIsIdentity(text: string)
    ensures ParseStateFile(SerializeStateFile(ParseStateFile(text))) == ParseStateFile(text)
  {
    ParsedNamesAreClean(text);
    StateFileRoundTrip(ParseStateFile(text));
  }

  // ---------------------------------------------------------------------
  // The file system
  // ---------------------------------------------------------------------

  class FileSystem {
    /** Path to text of every file that exists. */
    var files: map<string, string>

    constructor (initial: map<string, string>)
      ensures files == initial
    {
      files := initial;
    }

    /** `os.path.exists`. */
    predicate Exists(path: string)
      reads this
    {
      path in files
    }

    /** `f.read()` on a file opened for reading. */
    method ReadText(path: string) returns (text: string)
      requires Exists(path)
      ensures text == files[path]
    {
      text := files[path];
    }

    /** `open(path, "w")`: creates the file or truncates it. */
    method OpenForWriting(path: string)
      modifies this
      ensures files == old(files)[path := ""]
    {
      files := files[path := ""];
    }

    /** `f.write(s)` on a file opened for writing. */
    method Append(path: string, s: string)
      requires Exists(path)
      modifies this
      ensures files == old(files)[path := old(files)[path] + s]
    {
      files := files[path := files[path] + s];
    }

    /** `os.remove`. */
    method Remove(path: string)
      requires Exists(path)
      modifies this
      ensures files == old(files) - {path}
    {
      files := files - {path};
    }
  }

  // ---------------------------------------------------------------------
  // load_repositories_to_process
  // ---------------------------------------------------------------------

  /** `[repo.full_name for repo in all_repos]`. */
  function FullNames(repos: seq<Repo>): seq<string>
  {
    seq(|repos|, i requires 0 <= i < |repos| => repos[i].fullName)
  }

  /** The worklist the loader returns. `listing` is how iterating the
      organisation's repositories completes; `Raised` is an exception caught by
      the loader's `except Exception`. */
  function LoadedNames(files: map<string, string>, stateFile: string, listing: Outcome<seq<Repo>>): seq<string>
  {
    if stateFile in files then ParseStateFile(files[stateFile])
    else if listing.Raised? then []
    else FullNames(listing.value)
  }

  /** The files after the loader as written: a missing state file is created
      from any listing that completes, an empty one included. */
  function FilesAfterLoad(files: map<string, string>, stateFile: string, listing: Outcome<seq<Repo>>): map<string, string>
  {
    if stateFile in files || listing.Raised? then files
    else files[stateFile := SerializeStateFile(FullNames(listing.value))]
  }

  /** The files after the corrected loader: the state file is created only
      for a non-empty worklist. */
  function FilesAfterCheckedLoad(files: map<string, string>, stateFile: string, listing: Outcome<seq<Repo>>): map<string, string>
  {
    if stateFile in files || listing.Raised? || listing.value == [] then files
    else files[stateFile := SerializeStateFile(FullNames(listing.value))]
  }

  /** `open(state_file, "w")` truncates the state file, and the `f.write`
      loop then writes one line per name. */
  method WriteStateFile(fs: FileSystem, stateFile: string, names: seq<string>)
    modifies fs
    ensures fs.files == old(fs.files)[stateFile := SerializeStateFile(names)]
  {
    fs.OpenForWriting(stateFile);
    for i := 0 to |names|
      invariant fs.files == old(fs.files)[stateFile := SerializeStateFile(names[..i])]
    {
      SerializeAppend(names[..i], [names[i]]);
      assert names[..i + 1] == names[..i] + [names[i]];
      assert SerializeStateFile([names[i]]) == names[i] + "\n";
      fs.Append(stateFile, names[i] + "\n");
    }
    assert names[..|names|] == names;
  }

  /** `load_repositories_to_process`, as written. */
  method LoadRepositoriesToProcess(fs: FileSystem, stateFile: string, listing: Outcome<seq<Repo>>)
    returns (names: seq<string>)
    modifies fs
    ensures names == LoadedNames(old(fs.files), stateFile, listing)
    ensures fs.files == FilesAfterLoad(old(fs.files), stateFile, listing)
  {
    if fs.Exists(stateFile) {
      var text := fs.ReadText(stateFile);
      names := ParseStateFile(text);
      return;
    }
    if listing.Raised? {
      names := [];
      return;
    }
    names := FullNames(listing.value);
    WriteStateFile(fs, stateFile, names);
  }

  /** The loader with the state file written only when there is work. */
  method LoadRepositoriesChecked(fs: FileSystem, stateFile: string, listing: Outcome<seq<Repo>>)
    returns (names: seq<string>)
    modifies fs
    ensures names == LoadedNames(old(fs.files), stateFile, listing)
    ensures fs.files == FilesAfterCheckedLoad(old(fs.files), stateFile, listing)
  {
    if fs.Exists(stateFile) {
      var text := fs.ReadText(stateFile);
      names := ParseStateFile(text);
      return;
    }
    if listing.Raised? {
      names := [];
      return;
    }
    names := FullNames(listing.value);
    if names != [] {
      WriteStateFile(fs, stateFile, names);
    }
  }

  /** With a state file present, the worklist is read from it and the
      listing plays no part. */
  lemma ResumeIgnoresListing(files: map<string, string>, stateFile: string, a: Outcome<seq<Repo>>, b: Outcome<seq<Repo>>)
    requires stateFile in files
    ensures LoadedNames(files, stateFile, a) == LoadedNames(files, stateFile, b)
    ensures FilesAfterLoad(files, stateFile, a) == files
    ensures FilesAfterCheckedLoad(files, stateFile, a) == files
  {
  }

  /** A fresh load writes exactly the fetched names, and a later run that
      resumes from that state file gets the same worklist back. */
  lemma FreshLoadResumesSameWorklist(files: map<string, string>, stateFile: string, repos: seq<Repo>, later: Outcome<seq<Repo>>)
    requires stateFile !in files
    requires forall i :: 0 <= i < |repos| ==> Clean(repos[i].fullName)
    ensures LoadedNames(files, stateFile, Returned(repos)) == FullNames(repos)
    ensures LoadedNames(FilesAfterLoad(files, stateFile, Returned(repos)), stateFile, later) == FullNames(repos)
  {
    StateFileRoundTrip(FullNames(repos));
  }

  /** The loader as written: a listing that yields nothing (three failed
      attempts, or an organisation with no repositories) leaves an empty state
      file behind, and every later run reads an empty worklist from it
      whatever the organisation holds by then. */
  lemma EmptyListingBlocksLaterRuns(files: map<string, string>, stateFile: string, later: Outcome<seq<Repo>>)
    requires stateFile !in files
    ensures LoadedNames(files, stateFile, Returned([])) == []
    ensures FilesAfterLoad(files, stateFile, Returned([])) == files[stateFile := ""]
    ensures LoadedNames(FilesAfterLoad(files, stateFile, Returned([])), stateFile, later) == []
    ensures FilesAfterLoad(FilesAfterLoad(files, stateFile, Returned([])), stateFile, later)
         == files[stateFile := ""]
  {
    assert FullNames([]) == [];
    assert FileLines("") == [];
  }

  /** The corrected loader leaves a state file exactly when it returns work. */
  lemma CheckedLoadWritesOnlyWork(files: map<string, string>, stateFile: string, listing: Outcome<seq<Repo>>)
    requires stateFile !in files
    ensures stateFile in FilesAfterCheckedLoad(files, stateFile, listing) <==> LoadedNames(files, stateFile, listing) != []
    ensures LoadedNames(files, stateFile, listing) == [] ==> FilesAfterCheckedLoad(files, stateFile, listing) == files
  {
  }

  /** After an empty listing, the corrected loader's next run fetches again. */
  lemma CheckedLoadRecovers(files: map<string, string>, stateFile: string, later: Outcome<seq<Repo>>)
    requires stateFile !in files
    ensures FilesAfterCheckedLoad(files, stateFile, Returned([])) == files
    ensures LoadedNames(FilesAfterCheckedLoad(files, stateFile, Returned([])), stateFile, later)
         == LoadedNames(files, stateFile, later)
  {
  }

  // ---------------------------------------------------------------------
  // process_repo_wrapper and main
  // ---------------------------------------------------------------------

  /** `process_repo_wrapper`: the processor's effects, and the exception it
      logged instead of propagating, if any. */
  method ProcessRepoWrapper(repoName: string, svc: Services) returns (effects: seq<Effect>, failure: Option<ErrorKind>)
    ensures effects == Process(repoName, svc).effects
    ensures failure.Some? <==> Process(repoName, svc).outcome.Raised?
    ensures failure.Some? ==> Process(repoName, svc).outcome == Raised(failure.value)
  {
    var outcome;
    effects, outcome := ProcessRepo(repoName, svc);
    failure := if outcome.Raised? then Some(outcome.kind) else None;
  }

  datatype RunEvent =
    | Dispatched(name: string, effects: seq<Effect>, failure: Option<ErrorKind>)
    | StateFileRemoved

  /** What one dispatch of `process_repo_wrapper` records. */
  function Dispatch(name: string, svc: Services): RunEvent
  {
    var p := Process(name, svc);
    Dispatched(name, p.effects, if p.outcome.Raised? then Some(p.outcome.kind) else None)
  }

  /** The dispatches for a worklist, in worklist order. */
  function Dispatches(names: seq<string>, svc: Services): seq<RunEvent>
  {
    if names == [] then [] else Dispatches(names[..|names| - 1], svc) + [Dispatch(names[|names| - 1], svc)]
  }

  /** Each name of the worklist is dispatched exactly once, in order, and a
      failing repository does not stop the ones after it. */
  lemma {:induction false} DispatchesEachOnce(names: seq<string>, svc: Services)
    ensures |Dispatches(names, svc)| == |names|
    ensures forall i :: 0 <= i < |names| ==>
      Dispatches(names, svc)[i].Dispatched? && Dispatches(names, svc)[i].name == names[i]
      && Dispatches(names, svc)[i].effects == Process(names[i], svc).effects
  {
    if names != [] {
      DispatchesEachOnce(names[..|names| - 1], svc);
    }
  }

  /** The `executor.submit` of `process_repo_wrapper` for every name of the
      worklist, in order, and the `concurrent.futures.wait` for all of them; a repository whose processing fails is logged
      and the others still run. */
  method DispatchAll(names: seq<string>, svc: Services) returns (log: seq<RunEvent>)
    ensures log == Dispatches(names, svc)
  {
    log := [];
    for i := 0 to |names|
      invariant log == Dispatches(names[..i], svc)
    {
      var effects, failure := ProcessRepoWrapper(names[i], svc);
      log := log + [Dispatched(names[i], effects, failure)];
      assert names[..i + 1][..i] == names[..i];
    }
    assert names[..|names|] == names;
  }

  /** `main`, as written: load the worklist, exit with status 1 when it is
      empty (leaving behind whatever the loader wrote), otherwise dispatch
      every name and then delete the state file. The returned log lists the
      dispatches and the deletion in the order they happen. */
  method Run(fs: FileSystem, stateFile: string, listing: Outcome<seq<Repo>>, svc: Services)
    returns (exitCode: int, log: seq<RunEvent>)
    modifies fs
    ensures var names := LoadedNames(old(fs.files), stateFile, listing);
      && (names == [] ==>
            exitCode == 1 && log == [] && fs.files == FilesAfterLoad(old(fs.files), stateFile, listing))
      && (names != [] ==>
            && exitCode == 0
            && log == Dispatches(names, svc) + [StateFileRemoved]
            && fs.files == old(fs.files) - {stateFile})
  {
    var names := LoadRepositoriesToProcess(fs, stateFile, listing);
    if names == [] {
      exitCode, log := 1, [];
      return;
    }
    log := DispatchAll(names, svc);
    if fs.Exists(stateFile) {
      fs.Remove(stateFile);
      log := log + [StateFileRemoved];
    }
    exitCode := 0;
  }

  /** `main` with the corrected loader: an empty worklist leaves the files
      untouched. */
  method RunChecked(fs: FileSystem, stateFile: string, listing: Outcome<seq<Repo>>, svc: Services)
    returns (exitCode: int, log: seq<RunEvent>)
    modifies fs
    ensures var names := LoadedNames(old(fs.files), stateFile, listing);
      && (names == [] ==> exitCode == 1 && log == [] && fs.files == old(fs.files))
      && (names != [] ==>
            && exitCode == 0
            && log == Dispatches(names, svc) + [StateFileRemoved]
            && fs.files == old(fs.files) - {stateFile})
  {
    var names := LoadRepositoriesChecked(fs, stateFile, listing);
    if names == [] {
      exitCode, log := 1, [];
      return;
    }
    log := DispatchAll(names, svc);
    if fs.Exists(stateFile) {
      fs.Remove(stateFile);
      log := log + [StateFileRemoved];
    }
    exitCode := 0;
  }

  /** Two runs of `main` as written, the first with no state file and a
      listing that yields nothing: both exit with status 1 and dispatch
      nothing, the second whatever its listing, and an empty state file stays
      behind. */
  method RunAfterEmptyListing(fs: FileSystem, stateFile: string, later: Outcome<seq<Repo>>, svc: Services)
    returns (first: int, second: int, secondLog: seq<RunEvent>)
    modifies fs
    requires stateFile !in fs.files
    ensures first == 1 && second == 1 && secondLog == []
    ensures fs.files == old(fs.files)[stateFile := ""]
  {
    EmptyListingBlocksLaterRuns(fs.files, stateFile, later);
    var firstLog;
    first, firstLog := Run(fs, stateFile, Returned([]), svc);
    second, secondLog := Run(fs, stateFile, later, svc);
  }

  /** The same two runs with the corrected loader: the first leaves no state
      file, so the second fetches afresh and does what a first run with its
      listing does. */
  method RunCheckedAfterEmptyListing(fs: FileSystem, stateFile: string, later: Outcome<seq<Repo>>, svc: Services)
    returns (first: int, second: int, secondLog: seq<RunEvent>)
    modifies fs
    requires stateFile !in fs.files
    ensures first == 1
    ensures var names := LoadedNames(old(fs.files), stateFile, later);
      && (names == [] ==> second == 1 && secondLog == [] && fs.files == old(fs.files))
      && (names != [] ==>
            && second == 0
            && secondLog == Dispatches(names, svc) + [StateFileRemoved]
            && fs.files == old(fs.files))
  {
    CheckedLoadRecovers(fs.files, stateFile, later);
    var firstLog;
    first, firstLog := RunChecked(fs, stateFile, Returned([]), svc);
    second, secondLog := RunChecked(fs, stateFile, later, svc);
  }
}
