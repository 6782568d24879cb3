/** src/repository/mod.rs and src/repository/sqlx_impl.rs: namespaces written into SQL as quoted identifiers. */
module Quoting {
  import opened Wrappers

  const SET_PATH := "SET LOCAL search_path TO "

  /** `str::replace('"', "\"\"")`. */
  function DoubleQuotes(s: string): string {
    if s == [] then [] else (if s[0] == '"' then "\"\"" else [s[0]]) + DoubleQuotes(s[1..])
  }

  function SetSearchPath(namespace: string): string {
    SET_PATH + "\"" + DoubleQuotes(namespace) + "\""
  }

  /** The identifier as `CREATE SCHEMA` writes it, unescaped. */
  function PlainIdentifier(namespace: string): string {
    "\"" + namespace + "\""
  }

  /** A character `create_organization` lets into a namespace; beyond ASCII all are let in here. */
  predicate NamespaceChar(c: char) {
    'a' <= c <= 'z' || 'A' <= c <= 'Z' || '0' <= c <= '9' || c == '_' || c >= '\U{0080}'
  }

  predicate NamespaceText(namespace: string) { forall i | 0 <= i < |namespace| :: NamespaceChar(namespace[i]) }

  /** PostgreSQL manual, section 4.1.1: the part of a quoted identifier behind its opening quote,
      as the name it denotes and the text that is left. */
  function LexBody(text: string): Option<(string, string)>
    decreases |text|
  {
    if text == [] then None
    else if text[0] != '"' then
      match LexBody(text[1..])
      case None => None
      case Some((name, rest)) => Some(([text[0]] + name, rest))
    else if |text| > 1 && text[1] == '"' then
      match LexBody(text[2..])
      case None => None
      case Some((name, rest)) => Some((['"'] + name, rest))
    else Some(([], text[1..]))
  }

  predicate IsName(name: string) { name != [] && '\0' !in name }

  function LexQuoted(text: string): Option<(string, string)> {
    if text == [] || text[0] != '"' then None
    else
      match LexBody(text[1..])
      case None => None
      case Some((name, rest)) => if IsName(name) then Some((name, rest)) else None
  }

  lemma {:induction false} LexInvertsDoubling(name: string, rest: string)
    requires rest == [] || rest[0] != '"'
    ensures LexBody(DoubleQuotes(name) + "\"" + rest) == Some((name, rest))
  {
    var text := DoubleQuotes(name) + "\"" + rest;
    if name == [] {
      assert text[1..] == rest;
    } else {
      LexInvertsDoubling(name[1..], rest);
      var tail := DoubleQuotes(name[1..]) + "\"" + rest;
      if name[0] == '"' {
        assert text[2..] == tail;
      } else {
        assert text[1..] == tail;
      }
      assert name == [name[0]] + name[1..];
    }
  }

  lemma {:induction false} LexedTextIsDoubled(text: string)
    ensures LexBody(text).Some? ==> text == DoubleQuotes(LexBody(text).value.0) + "\"" + LexBody(text).value.1
    decreases |text|
  {
    if text != [] && LexBody(text).Some? {
      var name, rest := LexBody(text).value.0, LexBody(text).value.1;
      if text[0] != '"' {
        LexedTextIsDoubled(text[1..]);
        assert name[1..] == LexBody(text[1..]).value.0;
        assert text == [text[0]] + text[1..];
      } else if |text| > 1 && text[1] == '"' {
        LexedTextIsDoubled(text[2..]);
        assert name[1..] == LexBody(text[2..]).value.0;
        assert text == text[..2] + text[2..];
      } else {
        assert text == "\"" + rest;
      }
    }
  }

  lemma {:induction false} DoublingGrows(s: string)
    ensures |DoubleQuotes(s)| >= |s|
    ensures DoubleQuotes(s) == s <==> '"' !in s
  {
    if s != [] {
      DoublingGrows(s[1..]);
      assert s == [s[0]] + s[1..];
      if s[0] != '"' {
        assert DoubleQuotes(s)[1..] == DoubleQuotes(s[1..]);
      }
    }
  }

  /** PostgreSQL reads back the very namespace and nothing is left over, unless the namespace is no identifier at
      all. */
  lemma SearchPathNamesNamespace(namespace: string)
    ensures LexQuoted(SetSearchPath(namespace)[|SET_PATH|..]) == if IsName(namespace) then Some((namespace, ""))
            else None
  {
    var text := SetSearchPath(namespace)[|SET_PATH|..];
    assert text[1..] == DoubleQuotes(namespace) + "\"" + "";
    LexInvertsDoubling(namespace, "");
  }

  lemma SearchPathInjective(a: string, b: string)
    requires SetSearchPath(a) == SetSearchPath(b)
    ensures a == b
  {
    assert SetSearchPath(a)[|SET_PATH| + 1..] == DoubleQuotes(a) + "\"" + "";
    assert SetSearchPath(b)[|SET_PATH| + 1..] == DoubleQuotes(b) + "\"" + "";
    LexInvertsDoubling(a, "");
    LexInvertsDoubling(b, "");
  }

  /** The unescaped form denotes the namespace exactly when the namespace holds no quote. */
  lemma PlainIdentifierNamesNamespace(namespace: string)
    ensures LexQuoted(PlainIdentifier(namespace)) == Some((namespace, "")) <==> IsName(namespace) && '"' !in namespace
  {
    var body := PlainIdentifier(namespace)[1..];
    assert body == namespace + "\"";
    DoublingGrows(namespace);
    if '"' !in namespace {
      LexInvertsDoubling(namespace, "");
      assert body == DoubleQuotes(namespace) + "\"" + "";
    }
    if LexBody(body) == Some((namespace, "")) {
      LexedTextIsDoubled(body);
      assert body == DoubleQuotes(namespace) + "\"";
      assert body[..|body| - 1] == namespace && body[..|body| - 1] == DoubleQuotes(namespace);
    }
  }

  /** For every namespace `create_organization` accepts, both statements name the same schema. */
  lemma AcceptedNamespacesAgree(namespace: string)
    requires NamespaceText(namespace) && namespace != []
    ensures LexQuoted(PlainIdentifier(namespace)) == Some((namespace, ""))
    ensures LexQuoted(SetSearchPath(namespace)[|SET_PATH|..]) == Some((namespace, ""))
  {
    PlainIdentifierNamesNamespace(namespace);
    SearchPathNamesNamespace(namespace);
  }
}
