/** The parts of Go's strings package that the repository relies on; a char stands for a byte or a rune. */
module Text {

  /** The characters that strings.TrimSpace removes. */
  predicate IsSpace(c: char) {
    || c == ' ' || '\t' <= c <= '\r' || c == '\U{0085}' || c == '\U{00A0}' || c == '\U{1680}'
    || '\U{2000}' <= c <= '\U{200A}' || c == '\U{2028}' || c == '\U{2029}' || c == '\U{202F}'
    || c == '\U{205F}' || c == '\U{3000}'
  }

  /** All blanks, written out; no printing character of ASCII is among them. */
  lemma SpacesAreThese(c: char)
    ensures IsSpace(c) <==>
              (|| c in "\t\n\U{000B}\U{000C}\r \U{0085}\U{00A0}\U{1680}\U{2000}\U{2001}\U{2002}\U{2003}\U{2004}"
               || c in "\U{2005}\U{2006}\U{2007}\U{2008}\U{2009}\U{200A}\U{2028}\U{2029}\U{202F}\U{205F}\U{3000}")
    ensures '!' <= c <= '~' ==> !IsSpace(c)
  {
  }

  /** strings.TrimSpace. */
  function TrimSpace(s: string): (t: string)
    ensures t == "" || (!IsSpace(t[0]) && !IsSpace(t[|t| - 1]))
    ensures forall c :: c in t ==> c in s
    ensures s == "" || (!IsSpace(s[0]) && !IsSpace(s[|s| - 1])) ==> t == s
  {
    if s == "" then ""
    else if IsSpace(s[0]) then TrimSpace(s[1..])
    else if IsSpace(s[|s| - 1]) then TrimSpace(s[..|s| - 1])
    else s
  }

  /** strings.Split on a one-character separator. */
  function Split(s: string, sep: char): (parts: seq<string>)
    ensures |parts| > 0
    ensures forall p :: p in parts ==> sep !in p
  {
    if s == "" then [""]
    else
      var rest := Split(s[1..], sep);
      if s[0] == sep then [""] + rest
      else [[s[0]] + rest[0]] + rest[1..]
  }

  lemma Regroup(a: string, b: string, c: string, d: string)
    ensures a + (b + c + d) == a + b + c + d == a + b + (c + d)
  {
  }

  /** Trimming cuts off blanks in front and behind, and nothing else. */
  lemma {:induction false} TrimSpaceCutsBlanks(s: string) returns (before: string, after: string)
    ensures s == before + TrimSpace(s) + after && forall c :: c in before + after ==> IsSpace(c)
  {
    if s == "" {
      before, after := "", "";
    } else if IsSpace(s[0]) {
      var inner;
      inner, after := TrimSpaceCutsBlanks(s[1..]);
      before := [s[0]] + inner;
      Regroup([s[0]], inner, TrimSpace(s[1..]), after);
      assert s == [s[0]] + s[1..];
    } else if IsSpace(s[|s| - 1]) {
      var inner;
      var last := s[|s| - 1];
      before, inner := TrimSpaceCutsBlanks(s[..|s| - 1]);
      after := inner + [last];
      Regroup(before, TrimSpace(s[..|s| - 1]), inner, [last]);
      assert s == s[..|s| - 1] + [last];
    } else {
      before, after := "", "";
    }
  }

  function Join(parts: seq<string>, sep: char): string {
    if parts == [] then ""
    else if |parts| == 1 then parts[0]
    else parts[0] + [sep] + Join(parts[1..], sep)
  }

  lemma {:induction false} SplitPrefix(p: string, sep: char, rest: string)
    requires sep !in p
    ensures Split(p + [sep] + rest, sep) == [p] + Split(rest, sep)
    ensures Split(p, sep) == [p]
  {
    if p == "" {
      assert ([sep] + rest)[1..] == rest;
      assert p + [sep] + rest == [sep] + rest;
    } else {
      SplitPrefix(p[1..], sep, rest);
      var s := p + [sep] + rest;
      assert s[1..] == p[1..] + [sep] + rest;
      assert [p[0]] + p[1..] == p;
    }
  }

  lemma {:induction false} SplitInvertsJoin(parts: seq<string>, sep: char)
    requires parts != [] && forall p :: p in parts ==> sep !in p
    ensures Split(Join(parts, sep), sep) == parts
  {
    if |parts| == 1 {
      SplitPrefix(parts[0], sep, "");
      assert parts == [parts[0]];
    } else {
      var rest := Join(parts[1..], sep);
      SplitInvertsJoin(parts[1..], sep);
      SplitPrefix(parts[0], sep, rest);
      assert Join(parts, sep) == parts[0] + [sep] + rest;
      assert parts == [parts[0]] + parts[1..];
    }
  }

  lemma {:induction false} JoinInvertsSplit(s: string, sep: char)
    ensures Join(Split(s, sep), sep) == s
  {
    if s != "" {
      JoinInvertsSplit(s[1..], sep);
      var rest := Split(s[1..], sep);
      assert Split(s, sep)[1..] == if s[0] == sep then rest else rest[1..];
      if s[0] == sep {
        assert Join(Split(s, sep), sep) == "" + [sep] + Join(rest, sep);
      }
    }
  }

  /** strings.TrimPrefix(path, "/"): at most one leading slash goes. */
  function TrimSlash(path: string): (name: string)
    ensures path == "/" + name || (path == name && !("/" <= path))
  {
    if path != "" && path[0] == '/' then path[1..] else path
  }

  /** A topic is named by its name with a slash in front, or by its bare name if that has none. */
  lemma TrimSlashFindsName(name: string)
    ensures TrimSlash("/" + name) == name
    ensures !("/" <= name) ==> TrimSlash(name) == name
  {
    assert ("/" + name)[1..] == name;
  }

}
