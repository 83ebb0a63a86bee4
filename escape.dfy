/** The identifier sanitizer `escape_sqlite`: a name is emitted bare when it looks
    like a plain identifier and is not one of SQLite's keywords (compared in lower
    case); every other name is wrapped in square brackets, SQLite's bracket
    quoting.  Nothing inside the name is escaped. */
module SqliteEscape {
  import opened Strings

  /** Membership in `reserved_words`, SQLite's keyword list
      (https://www.sqlite.org/lang_keywords.html) in lower case: the set is
      written as its membership test, the keywords grouped by length. */
  predicate IsReserved(w: string)
  {
    (|w| == 2 && (w == "as" || w == "by" || w == "if" || w == "in" || w == "is" || w == "no" ||
          w == "of" || w == "on" || w == "or" || w == "to"))
    || (|w| == 3 && (w == "add" || w == "all" || w == "and" || w == "asc" || w == "end" ||
          w == "for" || w == "key" || w == "not" || w == "row" || w == "set"))
    || (|w| == 4 && (w == "case" || w == "cast" || w == "desc" || w == "drop" || w == "each" ||
          w == "else" || w == "fail" || w == "from" || w == "full" || w == "glob" || w == "into" ||
          w == "join" || w == "left" || w == "like" || w == "null" || w == "plan" || w == "temp" ||
          w == "then" || w == "view" || w == "when" || w == "with"))
    || (|w| == 5 && (w == "abort" || w == "after" || w == "alter" || w == "begin" || w == "check" ||
          w == "cross" || w == "group" || w == "index" || w == "inner" || w == "limit" ||
          w == "match" || w == "order" || w == "outer" || w == "query" || w == "raise" ||
          w == "right" || w == "table" || w == "union" || w == "using" || w == "where"))
    || (|w| == 6 && (w == "action" || w == "attach" || w == "before" || w == "column" ||
          w == "commit" || w == "create" || w == "delete" || w == "detach" || w == "escape" ||
          w == "except" || w == "exists" || w == "having" || w == "ignore" || w == "insert" ||
          w == "isnull" || w == "offset" || w == "pragma" || w == "regexp" || w == "rename" ||
          w == "select" || w == "unique" || w == "update" || w == "vacuum" || w == "values"))
    || (|w| == 7 && (w == "analyze" || w == "between" || w == "cascade" || w == "collate" ||
          w == "default" || w == "explain" || w == "foreign" || w == "indexed" || w == "instead" ||
          w == "natural" || w == "notnull" || w == "primary" || w == "reindex" || w == "release" ||
          w == "replace" || w == "trigger" || w == "virtual" || w == "without"))
    || (|w| == 8 && (w == "conflict" || w == "database" || w == "deferred" || w == "distinct" ||
          w == "restrict" || w == "rollback"))
    || (|w| == 9 && (w == "exclusive" || w == "immediate" || w == "initially" || w == "intersect" ||
          w == "recursive" || w == "savepoint" || w == "temporary"))
    || (|w| == 10 && (w == "constraint" || w == "deferrable" || w == "references"))
    || (|w| == 11 && (w == "transaction"))
    || (|w| == 12 && (w == "current_date" || w == "current_time"))
    || (|w| == 13 && (w == "autoincrement"))
    || (|w| == 17 && (w == "current_timestamp"))
  }

  /** `[a-zA-Z_]` */
  predicate IsIdentStart(c: char)
  {
    'a' <= c <= 'z' || 'A' <= c <= 'Z' || c == '_'
  }

  /** `[a-zA-Z0-9_]` */
  predicate IsIdentChar(c: char)
  {
    IsIdentStart(c) || '0' <= c <= '9'
  }

  /** The whole of `s` is `[a-zA-Z_][a-zA-Z0-9_]*`. */
  predicate IsIdentifier(s: string)
  {
    |s| > 0 && IsIdentStart(s[0]) && forall i :: 1 <= i < |s| ==> IsIdentChar(s[i])
  }

  /** `re.match(r"^[a-zA-Z_][a-zA-Z0-9_]*$", s)` succeeds.  Python's `$` matches at
      the end of the string and also just before a newline that ends it, so an
      identifier followed by one final newline matches too. */
  predicate MatchesNormalWord(s: string)
  {
    IsIdentifier(s) || (|s| > 1 && s[|s| - 1] == '\n' && IsIdentifier(s[..|s| - 1]))
  }

  function LowerChar(c: char): char
  {
    if 'A' <= c <= 'Z' then (c as int + 32) as char else c
  }

  /** `s.lower()` on ASCII text, which is all it is ever applied to here: it is
      only evaluated once `MatchesNormalWord(s)` holds. */
  function Lower(s: string): string
  {
    seq(|s|, i requires 0 <= i < |s| => LowerChar(s[i]))
  }

  /** The condition under which `escape_sqlite` leaves a name as it is. */
  predicate StaysBare(s: string)
  {
    MatchesNormalWord(s) && !IsReserved(Lower(s))
  }

  /** `escape_sqlite(s)` */
  function Escape(s: string): (r: string)
    ensures r == s <==> StaysBare(s)
    ensures r != s ==> |r| == |s| + 2 && r[0] == '[' && r[|r| - 1] == ']' && r[1..|r| - 1] == s
  {
    if MatchesNormalWord(s) && !IsReserved(Lower(s)) then s else "[" + s + "]"
  }

  /** Removes one pair of enclosing brackets, if there is one. */
  function Unbracket(r: string): string
  {
    if |r| >= 2 && r[0] == '[' && r[|r| - 1] == ']' then r[1..|r| - 1] else r
  }

  /** The bracketing is reversible: the original name can always be recovered
      from the emitted one, because a bare name never starts with `[`. */
  lemma EscapeRoundTrip(s: string)
    ensures Unbracket(Escape(s)) == s
  {
    if Escape(s) == s && |s| > 0 {
      assert IsIdentStart(s[0]);
    }
  }

  /** Distinct names are emitted as distinct identifiers. */
  lemma EscapeInjective(a: string, b: string)
    requires Escape(a) == Escape(b)
    ensures a == b
  {
    EscapeRoundTrip(a);
    EscapeRoundTrip(b);
  }

  /** The empty name fails the pattern and comes out as `[]`. */
  lemma EscapeEmpty()
    ensures Escape("") == "[]"
  {
  }

  /** Escaping is idempotent exactly on the names it leaves bare: a bracketed
      name is bracketed once more. */
  lemma EscapeIdempotentExactlyWhenBare(s: string)
    ensures Escape(Escape(s)) == Escape(s) <==> StaysBare(s)
  {
    if !StaysBare(s) {
      EscapeRewrapsBracketed(s);
      assert |Escape(Escape(s))| == |s| + 4;
    }
  }

  /** A bracketed name is bracketed again when escaped a second time, since `[`
      cannot start an identifier. */
  lemma EscapeRewrapsBracketed(s: string)
    requires Escape(s) != s
    ensures Escape(Escape(s)) == "[" + "[" + s + "]" + "]"
  {
    var r := "[" + s + "]";
    assert r[0] == '[' && r[|r| - 1] == ']';
    assert !IsIdentStart(r[0]);
    assert !MatchesNormalWord(r);
  }

  /** Any name outside the pattern is bracketed, whatever its letters. */
  lemma EscapeBracketsNonIdentifier(s: string)
    requires !MatchesNormalWord(s)
    ensures Escape(s) == "[" + s + "]"
  {
  }

  /** The keyword test ignores case: two identifiers that differ only in the case
      of their letters are either both left bare or both bracketed. */
  lemma EscapeIgnoresCase(s: string, t: string)
    requires IsIdentifier(s) && IsIdentifier(t) && Lower(s) == Lower(t)
    ensures Escape(s) == s <==> Escape(t) == t
  {
  }

  /** A lower-case identifier that is not a keyword is emitted bare. */
  lemma EscapeKeepsPlainName(w: string)
    requires IsIdentifier(w) && Lower(w) == w && !IsReserved(w)
    ensures Escape(w) == w
  {
  }

  /** Python's `$` lets an identifier with one trailing newline through, and the
      newline also keeps it out of the keyword set: such a name is emitted bare,
      even when the identifier is a keyword. */
  lemma EscapeKeepsTrailingNewline()
    ensures Escape("transaction\n") == "transaction\n"
  {
    var s := "transaction\n";
    assert s[..11] == "transaction" && IsIdentifier("transaction");
    assert MatchesNormalWord(s);
    assert Lower(s) == s;
    assert !IsReserved(s);
  }

  lemma EscapeKeepsId()
    ensures Escape("id") == "id"
  {
    assert Lower("id") == "id";
  }

  /** A keyword is bracketed. */
  lemma EscapeBracketsKeyword()
    ensures Escape("select") == "[select]"
  {
    assert Lower("select") == "select";
    assert IsReserved("select");
  }

  /** A keyword is bracketed whatever the case of its letters. */
  lemma EscapeBracketsKeywordInAnyCase()
    ensures Escape("Select") == "[Select]"
  {
    assert Lower("Select") == "select";
    assert IsReserved("select");
  }

  /** A name with a space in it is bracketed, space and all. */
  lemma EscapeBracketsSpacedName()
    ensures Escape("my column") == "[my column]"
  {
    var s := "my column";
    assert !IsIdentChar(s[2]) && s[|s| - 1] != '\n';
    assert !MatchesNormalWord(s);
    EscapeBracketsNonIdentifier(s);
  }
}
