/**
 * `loadIgnore`: the set of script paths a parsed HTML document must not run,
 * read from the `.sonarignore` file. Reading the file is left to the caller:
 * the file is given as its contents, `None` when it does not exist.
 */
module Ignore {
  import opened Wrappers
  import Text

  /** Assigning to `__proto__` on a plain object does not create an own key
      (a non-object value is silently dropped), so this entry never lands in
      the dictionary. */
  const ReservedKey := "__proto__"

  /** One line of the file as it is entered: trimmed, then stripped of one
      trailing `/`. */
  function Normalize(line: string): (r: string)
    ensures |r| <= |Text.Trim(line)|
    ensures r == [] || !Text.IsSpace(r[0])
  {
    var t := Text.Trim(line);
    if t != [] && t[|t| - 1] == '/' then t[..|t| - 1] else t
  }

  /** Normalising keeps the trimmed line or that line less its last
      character, and the last character goes exactly when it is a `/`: one
      slash at most is removed. */
  lemma NormalizeStripsOneSlash(line: string)
    ensures var t, r := Text.Trim(line), Normalize(line);
      && |r| <= |t| <= |r| + 1 && r == t[..|r|]
      && (|r| < |t| <==> t != [] && t[|t| - 1] == '/')
  {
  }

  /** `filter(entry.length > 0)`: the non-empty entries, in order. */
  function NonEmpty(entries: seq<string>): (r: seq<string>)
    ensures forall e :: e in r <==> e in entries && e != []
    ensures forall k :: 0 <= k < |r| ==> r[k] != []
    ensures |r| <= |entries|
  {
    if entries == [] then []
    else (if entries[0] == [] then [] else [entries[0]]) + NonEmpty(entries[1..])
  }

  /** The entries of the file, in file order: split on "\n", each line
      normalised, the empty ones dropped. */
  function Entries(contents: string): (r: seq<string>)
    ensures forall k :: 0 <= k < |r| ==> r[k] != []
    ensures |r| <= |Text.Split(contents, '\n')|
  {
    var lines := Text.Split(contents, '\n');
    NonEmpty(seq(|lines|, i requires 0 <= i < |lines| => Normalize(lines[i])))
  }

  /** The keys a dictionary gets when `true` is stored under each entry. */
  function Keys(entries: seq<string>): set<string> {
    set e | e in entries && e != ReservedKey
  }

  /** The keys the dictionary ends up with. */
  function IgnoreSet(file: Option<string>): (r: set<string>)
    ensures [] !in r && ReservedKey !in r
    ensures file.None? ==> r == {}
  {
    match file
    case None => {}
    case Some(contents) => Keys(Entries(contents))
  }

  /** The `forEach` that stores `true` under each entry, one after the other,
      into a dictionary that starts empty. */
  method Record(entries: seq<string>) returns (ignore: set<string>)
    ensures forall e :: e in ignore <==> e in entries && e != ReservedKey
  {
    ignore := {};
    for i := 0 to |entries|
      invariant forall e :: e in ignore <==> e in entries[..i] && e != ReservedKey
    {
      assert entries[..i + 1] == entries[..i] + [entries[i]];
      if entries[i] != ReservedKey {
        ignore := ignore + {entries[i]};
      }
    }
    assert entries[..|entries|] == entries;
  }

  /** `loadIgnore`: an absent file ignores nothing; otherwise every entry of
      the file is recorded. */
  method LoadIgnore(file: Option<string>) returns (ignore: set<string>)
    ensures file.None? ==> ignore == {}
    ensures ignore == IgnoreSet(file)
  {
    ignore := {};
    if file.Some? {
      ignore := Record(Entries(file.value));
    }
  }

  /** An entry is ignored exactly when some line of the file normalises to it,
      it is not empty, and it is not the reserved key. */
  lemma IgnoreSetMembers(contents: string, e: string)
    ensures e in IgnoreSet(Some(contents)) <==>
      && e != [] && e != ReservedKey
      && exists line :: line in Text.Split(contents, '\n') && Normalize(line) == e
  {
    var lines := Text.Split(contents, '\n');
    var normalized := seq(|lines|, i requires 0 <= i < |lines| => Normalize(lines[i]));
    if e in normalized {
      var i :| 0 <= i < |lines| && normalized[i] == e;
      assert lines[i] in lines;
    }
    if line :| line in lines && Normalize(line) == e {
      var i :| 0 <= i < |lines| && lines[i] == line;
      assert normalized[i] == e;
    }
  }

  /** A line that is blank, or holds only a `/` between white space, is
      dropped; every other line gives an entry. */
  lemma DroppedLines(line: string)
    ensures Normalize(line) == [] <==> Text.Trim(line) == [] || Text.Trim(line) == "/"
  {
    var t := Text.Trim(line);
    if |t| == 1 && t[0] == '/' {
      assert t == "/";
    }
  }

  /** Only which lines occur matters: reordering or repeating lines does not
      change the set. */
  lemma OnlyDistinctLinesMatter(s: string, t: string)
    requires forall line :: line in Text.Split(s, '\n') <==> line in Text.Split(t, '\n')
    ensures IgnoreSet(Some(s)) == IgnoreSet(Some(t))
  {
    forall e | e in IgnoreSet(Some(s)) ensures e in IgnoreSet(Some(t)) {
      IgnoreSetMembers(s, e);
      IgnoreSetMembers(t, e);
    }
    forall e | e in IgnoreSet(Some(t)) ensures e in IgnoreSet(Some(s)) {
      IgnoreSetMembers(s, e);
      IgnoreSetMembers(t, e);
    }
  }

  /** An entry written without surrounding white space and without a final
      `/` is kept as it is. */
  lemma PlainEntryKept(e: string)
    requires e != [] && !Text.IsSpace(e[0]) && !Text.IsSpace(e[|e| - 1]) && e[|e| - 1] != '/'
    ensures Normalize(e) == e
  {
    Text.TrimmedIsFixed(e);
  }

  /** An entry written with one final `/` loses it. */
  lemma DirectoryEntryStripped(e: string)
    requires e != [] && !Text.IsSpace(e[0])
    ensures Normalize(e + "/") == e
  {
    Text.TrimmedIsFixed(e + "/");
    assert (e + "/")[..|e|] == e;
  }

  /** A file of the shape "vendor/", a blank line, "fonts" and a final line
      break ignores exactly "vendor" and "fonts": the trailing `/` is
      stripped, the blank line and the empty piece after the last line break
      are dropped. */
  lemma SlashBlankAndFinalBreak(a: string, b: string)
    requires a != [] && !Text.IsSpace(a[0]) && '\n' !in a && a != ReservedKey
    requires b != [] && !Text.IsSpace(b[0]) && !Text.IsSpace(b[|b| - 1]) && b[|b| - 1] != '/'
    requires '\n' !in b && b != ReservedKey
    ensures IgnoreSet(Some(a + "/\n\n" + b + "\n")) == {a, b}
  {
    var contents := a + "/\n\n" + b + "\n";
    var lines := [a + "/", [], b, []];
    SlashBlankAndFinalBreakLines(a, b);
    DirectoryEntryStripped(a);
    PlainEntryKept(b);
    forall e ensures e in IgnoreSet(Some(contents)) <==> e == a || e == b {
      IgnoreSetMembers(contents, e);
      if e == a {
        assert lines[0] in lines;
      }
      if e == b {
        assert lines[2] in lines;
      }
    }
  }

  lemma SlashBlankAndFinalBreakLines(a: string, b: string)
    requires '\n' !in a && '\n' !in b
    ensures Text.Split(a + "/\n\n" + b + "\n", '\n') == [a + "/", [], b, []]
  {
    var lines := [a + "/", [], b, []];
    assert Text.Join(lines[2..], '\n') == b + "\n";
    assert Text.Join(lines[1..], '\n') == "\n" + b + "\n";
    assert Text.Join(lines, '\n') == a + "/\n\n" + b + "\n";
    Text.SplitJoin(lines, '\n');
  }
}
