/**
 Rule files of user assistants: one Markdown file per assistant and locale in one directory.
 Names are flat; ids or locales with a slash are not modelled.
 */
module RuleFiles {
  import opened Prelude
  import opened Text
  import opened AssistantTables
  import opened AssistantService

  const SUFFIX := ".md"

  /** `assistant_md_path`: an empty locale is no locale. */
  function FileName(id: string, locale: Option<string>): string {
    if locale.Some? && locale.value != "" then id + "." + locale.value + SUFFIX else id + SUFFIX
  }

  predicate EndsWith(s: string, suffix: string) {
    |suffix| <= |s| && s[|s| - |suffix|..] == suffix
  }

  /** The files `remove_assistant_md_files` removes for `id`. */
  predicate Belongs(name: string, id: string) {
    name == id + SUFFIX || (id + "." <= name && EndsWith(name, SUFFIX))
  }

  /** The locale a name distinguishes. */
  function Locale(locale: Option<string>): string {
    UnwrapOr(locale, "")
  }

  // ---------------------------------------------------------------------------------------
  // Names
  // ---------------------------------------------------------------------------------------

  /** What follows the id and its dot. */
  function Rest(locale: Option<string>): string {
    if Locale(locale) != "" then Locale(locale) + SUFFIX else "md"
  }

  lemma FileNameParts(id: string, locale: Option<string>)
    ensures FileName(id, locale) == id + ['.'] + Rest(locale)
    ensures EndsWith(FileName(id, locale), SUFFIX)
  {
    if Locale(locale) != "" {
      assert FileName(id, locale) == (id + ['.'] + Locale(locale)) + SUFFIX;
    }
  }

  /** `b` continues `a` behind a dot. */
  predicate Extends(a: string, b: string) {
    a + "." <= b
  }

  /** Neither id continues the other behind a dot: what keeps their files apart. */
  predicate Apart(a: string, b: string) {
    !Extends(a, b) && !Extends(b, a)
  }

  lemma PrefixesOfOneName(a: string, b: string, name: string)
    requires a + "." <= name && b + "." <= name
    ensures a == b || Extends(a, b) || Extends(b, a)
  {
    assert a == name[..|a|] && b == name[..|b|];
    assert |a| < |b| ==> a + "." == name[..|a| + 1] == b[..|a| + 1];
    assert |b| < |a| ==> b + "." == name[..|b| + 1] == a[..|b| + 1];
  }

  lemma NameStartsWithId(id: string, locale: Option<string>)
    ensures id + "." <= FileName(id, locale)
  {
    FileNameParts(id, locale);
  }

  /** For one id the name tells the locale; no locale and the empty locale share one. */
  lemma LocalesAreDistinct(id: string, locale: Option<string>, locale2: Option<string>)
    ensures FileName(id, locale) == FileName(id, locale2) <==> Locale(locale) == Locale(locale2)
  {
    FileNameParts(id, locale);
    FileNameParts(id, locale2);
    var a, b := Locale(locale), Locale(locale2);
    if FileName(id, locale) == FileName(id, locale2) {
      assert Rest(locale) == (id + ['.'] + Rest(locale))[|id| + 1..];
      assert Rest(locale2) == (id + ['.'] + Rest(locale2))[|id| + 1..];
      if a != "" && b != "" {
        assert |a + SUFFIX| == |b + SUFFIX|;
        assert a == (a + SUFFIX)[..|a|] && b == (b + SUFFIX)[..|b|];
      }
    }
  }

  /** Names of ids that are apart are equal only if ids and locales are. */
  lemma FileNamesAreInjective(id: string, locale: Option<string>, id2: string, locale2: Option<string>)
    requires Apart(id, id2)
    ensures FileName(id, locale) == FileName(id2, locale2) <==> id == id2 && Locale(locale) == Locale(locale2)
  {
    NameStartsWithId(id, locale);
    NameStartsWithId(id2, locale2);
    LocalesAreDistinct(id, locale, locale2);
    if FileName(id, locale) == FileName(id2, locale2) { PrefixesOfOneName(id, id2, FileName(id, locale)); }
  }

  /** The locales under which an id and one that continues it meet. */
  lemma ExtendedIdsMeet(a: string, b: string)
    requires Extends(a, b)
    ensures FileName(a, Some(b[|a| + 1..] + ".x")) == FileName(b, Some("x"))
  {
    var rest := b[|a| + 1..];
    assert b == a + "." + rest;
    assert FileName(a, Some(rest + ".x")) == a + "." + (rest + ".x") + SUFFIX;
    assert FileName(b, Some("x")) == (a + "." + rest) + "." + "x" + SUFFIX;
  }

  ghost predicate CanCollide(a: string, b: string) {
    exists locale, locale2 :: FileName(a, locale) == FileName(b, locale2)
  }

  /** Two ids can share a file exactly if one continues the other behind a dot. */
  lemma CollideIff(a: string, b: string)
    requires a != b
    ensures CanCollide(a, b) <==> !Apart(a, b)
  {
    if Extends(a, b) {
      ExtendedIdsMeet(a, b);
    } else if Extends(b, a) {
      ExtendedIdsMeet(b, a);
    } else {
      forall locale, locale2
        ensures FileName(a, locale) != FileName(b, locale2)
      {
        FileNamesAreInjective(a, locale, b, locale2);
      }
    }
  }

  /** With a dot in an id two assistants can share a file. */
  lemma DottedIdsCollide(id: string, locale: string)
    requires locale != ""
    ensures FileName(id, Some(locale)) == FileName(id + "." + locale, None)
  {
  }

  lemma BelongsIffPrefix(id: string, id2: string, locale: Option<string>)
    ensures Belongs(FileName(id2, locale), id) <==> id + "." <= FileName(id2, locale)
  {
    FileNameParts(id2, locale);
    FileNameParts(id, None);
  }

  ghost predicate CanBeDeletedFor(id2: string, id: string) {
    exists locale :: Belongs(FileName(id2, locale), id)
  }

  /** A file of one id can be deleted for another exactly if one continues the other behind a dot. */
  lemma DeletedForIff(id: string, id2: string)
    requires id != id2
    ensures CanBeDeletedFor(id2, id) <==> !Apart(id, id2)
  {
    if Extends(id, id2) {
      NameStartsWithId(id2, None);
      BelongsIffPrefix(id, id2, None);
      assert id + "." <= id2 <= FileName(id2, None);
      assert Belongs(FileName(id2, None), id);
    } else if Extends(id2, id) {
      var locale := Some(id[|id2| + 1..] + ".x");
      ExtendedIdsMeet(id2, id);
      NameStartsWithId(id, Some("x"));
      BelongsIffPrefix(id, id2, locale);
      assert Belongs(FileName(id2, locale), id);
    } else {
      forall locale
        ensures !Belongs(FileName(id2, locale), id)
      {
        ApartBelongs(id, id2, locale);
      }
    }
  }

  /** For ids that are apart, a file is deleted only for its own id. */
  lemma ApartBelongs(id: string, id2: string, locale: Option<string>)
    requires Apart(id, id2)
    ensures Belongs(FileName(id2, locale), id) <==> id == id2
  {
    BelongsIffPrefix(id, id2, locale);
    NameStartsWithId(id2, locale);
    if id + "." <= FileName(id2, locale) { PrefixesOfOneName(id, id2, FileName(id2, locale)); }
  }

  /**
   For which ids one given file is deleted, whatever dots ids and locale have: its own, every id its own
   continues, and every continuation of its own that the locale starts with, up to a dot or its end.
   */
  lemma BelongsIff(id: string, id2: string, locale: Option<string>)
    ensures Belongs(FileName(id2, locale), id) <==>
            || id == id2 || Extends(id, id2)
            || (Extends(id2, id) && Locale(locale) != "" && id[|id2| + 1..] + "." <= Locale(locale) + ".")
  {
    BelongsIffPrefix(id, id2, locale);
    NameStartsWithId(id2, locale);
    var name := FileName(id2, locale);
    if id + "." <= name { PrefixesOfOneName(id, id2, name); }
    if Extends(id, id2) {
      assert id + "." <= id2 <= name;
    } else if Extends(id2, id) {
      ContinuedName(id, id2, locale);
    }
  }

  lemma ContinuedName(id: string, id2: string, locale: Option<string>)
    requires Extends(id2, id)
    ensures id + "." <= FileName(id2, locale) <==>
            Locale(locale) != "" && id[|id2| + 1..] + "." <= Locale(locale) + "."
  {
    var rest, l := id[|id2| + 1..], Locale(locale);
    assert id + "." == id2 + ['.'] + (rest + ".");
    FileNameParts(id2, locale);
    SamePrefix(id2 + ['.'], rest + ".", Rest(locale));
    assert (rest + ".")[|rest|] == '.' && Lacks("md", '.');
    if l != "" {
      assert Rest(locale) == (l + ".") + "md";
      if rest + "." <= Rest(locale) {
        assert (rest + ".")[|rest|] == Rest(locale)[|rest|];
        assert |rest| <= |l|;
        assert rest + "." == Rest(locale)[..|rest| + 1] == (l + ".")[..|rest| + 1];
      }
    }
  }

  lemma SamePrefix(p: string, a: string, b: string)
    ensures p + a <= p + b <==> a <= b
  {
    if p + a <= p + b {
      assert a == (p + a)[|p|..] == (p + b)[|p|..][..|a|];
      assert b == (p + b)[|p|..];
    }
  }

  // ---------------------------------------------------------------------------------------
  // The directory
  // ---------------------------------------------------------------------------------------

  type Files = map<string, string>

  function Write(files: Files, id: string, locale: Option<string>, content: string): Files {
    files[FileName(id, locale) := content]
  }

  function Read(files: Files, id: string, locale: Option<string>): string {
    var name := FileName(id, locale);
    if name in files then files[name] else ""
  }

  function Without(files: Files, id: string): Files {
    map name | name in files && !Belongs(name, id) :: files[name]
  }

  /** The directory of rule files, with the operations that dispatch on the kind of assistant. */
  class RuleDirectory {
    var files: Files

    constructor ()
      ensures files == map[]
    {
      files := map[];
    }

    /** `bundled` is what the application ships for a built-in assistant. */
    method ReadRule(c: Config, id: string, locale: Option<string>, bundled: string) returns (content: string)
      ensures content == if IsBuiltin(c, id) then bundled else Read(files, id, locale)
    {
      if IsBuiltin(c, id) {
        return bundled;
      }
      var name := FileName(id, locale);
      content := if name in files then files[name] else "";
    }

    method WriteRule(c: Config, id: string, locale: Option<string>, content: string) returns (error: Option<Error>)
      modifies this
      ensures error == if IsBuiltin(c, id) then Some(BadRequest) else None
      ensures files == if IsBuiltin(c, id) then old(files) else Write(old(files), id, locale, content)
    {
      if IsBuiltin(c, id) {
        return Some(BadRequest);
      }
      files := files[FileName(id, locale) := content];
      return None;
    }

    /** Walks the directory entries in any order. */
    method DeleteRule(c: Config, id: string) returns (deleted: Result<bool, Error>)
      modifies this
      ensures IsBuiltin(c, id) ==> deleted == Err(BadRequest) && files == old(files)
      ensures !IsBuiltin(c, id) ==>
                && files == Without(old(files), id)
                && deleted == Ok(exists name :: name in old(files) && Belongs(name, id))
    {
      if IsBuiltin(c, id) {
        return Err(BadRequest);
      }
      var entries, any := files.Keys, false;
      while entries != {}
        invariant entries <= old(files).Keys
        invariant forall name :: name in files <==> name in old(files) && (name in entries || !Belongs(name, id))
        invariant forall name :: name in files ==> files[name] == old(files)[name]
        invariant any <==> exists name :: name in old(files) && name !in entries && Belongs(name, id)
        decreases |entries|
      {
        var name :| name in entries;
        entries := entries - {name};
        if Belongs(name, id) {
          files := files - {name};
          any := true;
        }
      }
      assert files == Without(old(files), id);
      return Ok(any);
    }
  }

  // ---------------------------------------------------------------------------------------
  // Histories
  // ---------------------------------------------------------------------------------------

  datatype RuleOp = WriteOp(id: string, locale: Option<string>, content: string) | DeleteOp(id: string)

  function Step(files: Files, op: RuleOp): Files {
    match op
    case WriteOp(id, locale, content) => Write(files, id, locale, content)
    case DeleteOp(id) => Without(files, id)
  }

  function Steps(files: Files, ops: seq<RuleOp>): Files {
    if ops == [] then files else Step(Steps(files, ops[..|ops| - 1]), ops[|ops| - 1])
  }

  /** The reference: what was last written for this assistant and locale since it was last deleted. */
  function LastWritten(ops: seq<RuleOp>, id: string, locale: Option<string>): string {
    if ops == [] then ""
    else
      match ops[|ops| - 1]
      case WriteOp(id2, locale2, content) =>
        if id2 == id && Locale(locale2) == Locale(locale) then content else LastWritten(ops[..|ops| - 1], id, locale)
      case DeleteOp(id2) => if id2 == id then "" else LastWritten(ops[..|ops| - 1], id, locale)
  }

  /** No other id of the history continues `id` behind a dot, or is so continued by it. */
  predicate KeepsApart(ops: seq<RuleOp>, id: string) {
    forall n :: 0 <= n < |ops| ==> Apart(ops[n].id, id)
  }

  /**
   Over every sequence of writes and deletes whose ids keep apart from `id`, dots or not, the directory is
   a table keyed by assistant and locale: a rule is read as last written until its assistant's rules are
   deleted.
   */
  lemma {:induction false} DirectoryIsATable(ops: seq<RuleOp>, id: string, locale: Option<string>)
    requires KeepsApart(ops, id)
    ensures Read(Steps(map[], ops), id, locale) == LastWritten(ops, id, locale)
    decreases |ops|
  {
    if ops != [] {
      var before := ops[..|ops| - 1];
      var op := ops[|ops| - 1];
      assert KeepsApart(before, id) && Apart(op.id, id);
      DirectoryIsATable(before, id, locale);
      match op
      case WriteOp(id2, locale2, _) => FileNamesAreInjective(id, locale, id2, locale2);
      case DeleteOp(id2) => ApartBelongs(id2, id, locale);
    }
  }

  /** For ids that do not keep apart the table law fails, for some locales, after two operations. */
  lemma TableLawFailsUnlessApart(id: string, id2: string)
    requires id != id2 && !Apart(id, id2)
    ensures exists locale, locale2 ::
              var ops := [WriteOp(id, locale, "mine"), WriteOp(id2, locale2, "other")];
              Read(Steps(map[], ops), id, locale) == "other" && LastWritten(ops, id, locale) == "mine"
  {
    CollideIff(id, id2);
    var locale, locale2 :| FileName(id, locale) == FileName(id2, locale2);
    var a, b := WriteOp(id, locale, "mine"), WriteOp(id2, locale2, "other");
    assert [a, b][..1] == [a] && [a][..0] == [];
    var files: Files := map[];
    assert Steps(files, [a]) == Step(Steps(files, [a][..0]), a) == Step(files, a);
    assert Steps(files, [a, b]) == Step(Steps(files, [a, b][..1]), b);
    assert LastWritten([a], id, locale) == "mine";
    assert LastWritten([a, b], id, locale) == "mine";
  }

  /** Deletion as well reaches further: deleting `a` also removes the rule of `a.b`. */
  lemma DeletingTakesDottedIdsAlong(files: Files, id: string, more: string, locale: Option<string>, content: string)
    ensures Read(Without(Write(files, id + "." + more, locale, content), id), id + "." + more, locale) == ""
  {
    BelongsIff(id, id + "." + more, locale);
    assert Extends(id, id + "." + more);
  }
}
