/** The shape tests on header words (internal/cadishfile/parse.go). */
module Addresses {
  import opened Objects

  function TrimComma(t: string): string {
    if t != [] && t[|t| - 1] == ',' then t[..|t| - 1] else t
  }

  /** The first place where `p` occurs, if any. */
  function Find(t: string, p: string): (r: Option<nat>)
    requires p != []
    ensures r.Some? ==> r.value + |p| <= |t|
  {
    if p <= t then Some(0)
    else if t == [] then None
    else match Find(t[1..], p)
         case None => None
         case Some(n) => Some(n + 1)
  }

  /** What precedes the first character of `cs`. */
  function Before(t: string, cs: set<char>): string {
    if t == [] || t[0] in cs then [] else [t[0]] + Before(t[1..], cs)
  }

  /** What precedes the last `c`, or everything. */
  function BeforeLast(t: string, c: char): string {
    if c !in t then t
    else if t[|t| - 1] == c then t[..|t| - 1]
    else BeforeLast(t[..|t| - 1], c)
  }

  predicate IsDigit(c: char) { '0' <= c <= '9' }

  predicate HostChar(c: char) {
    'a' <= c <= 'z' || 'A' <= c <= 'Z' || IsDigit(c) || c == '.' || c == '-' || c == '_'
  }

  /** ":8080" */
  predicate IsPort(t: string) {
    |t| > 1 && t[0] == ':' && forall i :: 1 <= i < |t| ==> IsDigit(t[i])
  }

  const SCHEME := "://"

  function HostPart(t: string): string {
    var u := match Find(t, SCHEME) case Some(i) => t[i + |SCHEME|..] case None => t;
    var v := Before(u, {'/', '?', '#'});
    if "*." <= v then v[2..] else v
  }

  /** Shaped like a site address; a lone comma counts. */
  predicate IsAddress(text: string) {
    var t := TrimComma(text);
    if t == "" then true
    else if t[0] == ':' then IsPort(t)
    else
      var h := HostPart(t);
      if h == "" then false
      else if h[0] == '[' then ']' in h
      else
        var host := BeforeLast(h, ':');
        host != "" && forall i :: 0 <= i < |host| ==> HostChar(host[i])
  }

  /** A shape no directive name can take. */
  predicate NeverDirective(t: string) {
    Find(t, SCHEME).Some? || "[" <= t || IsPort(t)
  }

  predicate IsClearHost(text: string) {
    var t := TrimComma(text);
    NeverDirective(t) || (IsAddress(t) && ('.' in t || t == "localhost" || ':' in t))
  }

  // ----- Splitting -----

  predicate IsSpace(c: char) {
    c in {' ', '\t', '\n', '\r', '\U{0B}', '\U{0C}', '\U{85}', '\U{A0}', '\U{1680}', '\U{2028}', '\U{2029}',
          '\U{202F}', '\U{205F}', '\U{3000}'}
    || '\U{2000}' <= c <= '\U{200A}'
  }

  function TrimSpace(t: string): string {
    if t == [] then t
    else if IsSpace(t[0]) then TrimSpace(t[1..])
    else if IsSpace(t[|t| - 1]) then TrimSpace(t[..|t| - 1])
    else t
  }

  /** The parts between commas, trimmed, the empty ones dropped. */
  function Parts(t: string, part: string): seq<string> {
    if t == [] then (if TrimSpace(part) == "" then [] else [TrimSpace(part)])
    else if t[0] == ',' then (if TrimSpace(part) == "" then [] else [TrimSpace(part)]) + Parts(t[1..], "")
    else Parts(t[1..], part + [t[0]])
  }

  /** A word without a comma is one address as it stands. */
  function SplitAddress(t: string): seq<string> {
    if ',' in t then Parts(t, "") else [t]
  }
}
