/** Small shared datatypes. */
module Common {

  /** A nullable column or an optional field. */
  datatype Option<+T> = None | Some(value: T)

  /** Actor roles (packages/domain/src/roles.ts). */
  datatype PlatformRole =
    | FamilyEmployer
    | Worker
    | Accountant
    | AccountantManager
    | OperationsAgent
    | PlatformAdmin
    | SupportAgent
    | SystemActor

  function Max(a: int, b: int): int {
    if a < b then b else a
  }

  function Min(a: int, b: int): int {
    if a < b then a else b
  }

  /** What `trim` removes: the language's white space and line terminators. */
  predicate IsBlank(c: char) {
    || '\U{0009}' <= c <= '\U{000D}'
    || '\U{2000}' <= c <= '\U{200A}'
    || c in "\U{0020}\U{00A0}\U{1680}\U{2028}\U{2029}\U{202F}\U{205F}\U{3000}\U{FEFF}"
  }

  /** Whether trimming a string leaves anything: some character is not a blank. */
  predicate HasText(s: string) {
    exists i :: 0 <= i < |s| && !IsBlank(s[i])
  }

  function TrimStart(s: string): string {
    if s != [] && IsBlank(s[0]) then TrimStart(s[1..]) else s
  }

  function TrimEnd(s: string): string {
    if s != [] && IsBlank(s[|s| - 1]) then TrimEnd(s[..|s| - 1]) else s
  }

  /** Text is what is left of a string after trimming both ends. */
  lemma {:induction false} HasTextIsTrimmed(s: string)
    ensures HasText(s) <==> TrimEnd(TrimStart(s)) != ""
    decreases |s|
  {
    if s != [] && IsBlank(s[0]) {
      HasTextIsTrimmed(s[1..]);
      assert s == [s[0]] + s[1..];
    } else if s != [] {
      EndIsKept(s);
    }
  }

  lemma {:induction false} EndIsKept(s: string)
    requires s != [] && !IsBlank(s[0])
    ensures TrimEnd(s) != ""
    decreases |s|
  {
    if IsBlank(s[|s| - 1]) {
      EndIsKept(s[..|s| - 1]);
    }
  }

  /** The white space and line terminators of the language, one by one. */
  lemma BlanksAre(c: char)
    ensures IsBlank(c) <==>
            c in "\U{0009}\U{000A}\U{000B}\U{000C}\U{000D}\U{0020}\U{00A0}\U{1680}\U{2000}\U{2001}\U{2002}\U{2003}\U{2004}" ||
            c in "\U{2005}\U{2006}\U{2007}\U{2008}\U{2009}\U{200A}\U{2028}\U{2029}\U{202F}\U{205F}\U{3000}\U{FEFF}"
  {
  }

  predicate StartsWith(s: string, prefix: string) {
    |prefix| <= |s| && s[..|prefix|] == prefix
  }
}
