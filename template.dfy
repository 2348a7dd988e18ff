/** Python's `string.Template(text).safe_substitute(mapping)`: `$$` becomes `$`,
    `$name` and `${name}` are replaced when `name` is a key of the mapping and
    left verbatim otherwise, and any other `$` is kept. Identifiers are ASCII
    letters, digits and `_`, not starting with a digit, in either case. */
module Template {

  predicate IsIdStart(c: char)
  {
    'a' <= c <= 'z' || 'A' <= c <= 'Z' || c == '_'
  }

  predicate IsIdChar(c: char)
  {
    IsIdStart(c) || '0' <= c <= '9'
  }

  /** A placeholder name `string.Template` recognises. */
  predicate IsIdentifier(s: string)
  {
    s != [] && IsIdStart(s[0]) && forall i :: 0 <= i < |s| ==> IsIdChar(s[i])
  }

  /** Length of the longest prefix of identifier characters. */
  function IdSpan(s: string): (n: nat)
    ensures n <= |s|
    ensures forall i :: 0 <= i < n ==> IsIdChar(s[i])
    ensures n < |s| ==> !IsIdChar(s[n])
  {
    if s == [] || !IsIdChar(s[0]) then 0 else 1 + IdSpan(s[1..])
  }

  /** The text with every placeholder scanned left to right. */
  function SafeSubstitute(t: string, m: map<string, string>): string
    decreases |t|
  {
    if t == [] then []
    else if t[0] != '$' then [t[0]] + SafeSubstitute(t[1..], m)
    else if |t| >= 2 && t[1] == '$' then "$" + SafeSubstitute(t[2..], m)
    else if |t| >= 2 && IsIdStart(t[1]) then
      // `$name`: t[1..n] is the longest identifier after the `$`
      var n := 1 + IdSpan(t[1..]);
      var id := t[1..n];
      (if id in m then m[id] else t[..n]) + SafeSubstitute(t[n..], m)
    else if |t| >= 3 && t[1] == '{' && IsIdStart(t[2])
            && 2 + IdSpan(t[2..]) < |t| && t[2 + IdSpan(t[2..])] == '}' then
      // `${name}`: t[2..n] is the identifier and t[n] the closing brace
      var n := 2 + IdSpan(t[2..]);
      var id := t[2..n];
      (if id in m then m[id] else t[..n + 1]) + SafeSubstitute(t[n + 1..], m)
    else "$" + SafeSubstitute(t[1..], m)
  }

  /** Text without a `$` passes through unchanged. */
  lemma {:induction false} SubstituteLiteral(p: string, rest: string, m: map<string, string>)
    requires '$' !in p
    ensures SafeSubstitute(p + rest, m) == p + SafeSubstitute(rest, m)
    decreases |p|
  {
    if p != [] {
      SubstituteLiteral(p[1..], rest, m);
      assert (p + rest)[0] == p[0] && (p + rest)[1..] == p[1..] + rest;
      assert p == [p[0]] + p[1..];
    } else {
      assert p + rest == rest;
    }
  }

  /** A text containing no `$` at all is its own substitution. */
  lemma NoPlaceholders(t: string, m: map<string, string>)
    requires '$' !in t
    ensures SafeSubstitute(t, m) == t
  {
    SubstituteLiteral(t, [], m);
    assert t + [] == t;
  }

  lemma {:induction false} IdSpanOf(k: string, rest: string)
    requires forall i :: 0 <= i < |k| ==> IsIdChar(k[i])
    requires rest == [] || !IsIdChar(rest[0])
    ensures IdSpan(k + rest) == |k|
    decreases |k|
  {
    if k == [] {
      assert k + rest == rest;
    } else {
      IdSpanOf(k[1..], rest);
      assert (k + rest)[1..] == k[1..] + rest;
    }
  }

  /** `${k}` is replaced by the value of `k` when `k` is a key, and kept
      verbatim otherwise. */
  lemma BracedPlaceholder(k: string, rest: string, m: map<string, string>)
    requires IsIdentifier(k)
    ensures SafeSubstitute("${" + k + "}" + rest, m)
         == (if k in m then m[k] else "${" + k + "}") + SafeSubstitute(rest, m)
  {
    var t := "${" + k + "}" + rest;
    IdSpanOf(k, "}" + rest);
    assert t[2..] == k + ("}" + rest);
    var n := 2 + |k|;
    assert t[1] == '{' && t[2] == k[0] && t[n] == '}';
    assert t[2..n] == k;
    assert t[..n + 1] == "${" + k + "}";
    assert t[n + 1..] == rest;
  }

  /** `$k` not followed by an identifier character is replaced by the value of
      `k` when `k` is a key, and kept verbatim otherwise. */
  lemma NamedPlaceholder(k: string, rest: string, m: map<string, string>)
    requires IsIdentifier(k)
    requires rest == [] || !IsIdChar(rest[0])
    ensures SafeSubstitute("$" + k + rest, m)
         == (if k in m then m[k] else "$" + k) + SafeSubstitute(rest, m)
  {
    var t := "$" + k + rest;
    IdSpanOf(k, rest);
    assert t[1..] == k + rest;
    var n := 1 + |k|;
    assert t[1..n] == k;
    assert t[..n] == "$" + k;
    assert t[n..] == rest;
  }
}
