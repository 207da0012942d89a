/**
 * The proxy's configuration (src/server/config.ts), read from the environment:
 * the listening port, the session service's URL and the directory roots the
 * file browser may show. An environment variable is `None` when unset. The
 * path library's `resolve` and the user's home directory are parameters; the
 * parsing of the service URL into host and port is not modelled.
 */
module ServerConfig {
  import opened Wrappers
  import opened Strings
  import opened Seqs

  /** `process.env.X || fallback`: an unset or empty variable gives the fallback. */
  function EnvOr(env: Option<string>, fallback: string): (r: string)
    ensures env.Some? && env.value != "" ==> r == env.value
    ensures env.None? || env.value == "" ==> r == fallback
  {
    if env.Some? && env.value != "" then env.value else fallback
  }

  /** The longest prefix of decimal digits. */
  function DigitPrefix(s: string): (d: string)
    ensures |d| <= |s| && d == s[..|d|]
    ensures forall i :: 0 <= i < |d| ==> IsDigit(d[i])
    ensures |d| < |s| ==> !IsDigit(s[|d|])
  {
    if s != [] && IsDigit(s[0]) then [s[0]] + DigitPrefix(s[1..]) else []
  }

  /**
   * `parseInt(s, 10)`: leading whitespace skipped, an optional sign, then the
   * longest run of digits; `None` (NaN) when there is no digit.
   */
  function ParseInt(s: string): (r: Option<int>)
    ensures r.None? <==> DigitPrefix(SignDropped(TrimStart(s))) == []
  {
    var t := TrimStart(s);
    var d := DigitPrefix(SignDropped(t));
    if d == [] then None
    else
      var v: int := DigitsValue(d);
      if t[0] == '-' then Some(-v) else Some(v)
  }

  function SignDropped(t: string): string {
    if t != [] && (t[0] == '-' || t[0] == '+') then t[1..] else t
  }

  /** `parseInt` reads back what `String(n)` writes, and stops at the first non-digit. */
  lemma ParseIntRoundTrip(n: nat, rest: string)
    requires rest == [] || !IsDigit(rest[0])
    ensures ParseInt(NatToString(n) + rest) == Some(n)
  {
    var s := NatToString(n);
    var t := s + rest;
    assert t[0] == s[0];
    ParseIntDigitLed(t);
    DigitPrefixOf(s, rest);
    NatToStringRoundTrip(n);
  }

  /** A string that starts with a digit is read as its digit prefix. */
  lemma ParseIntDigitLed(t: string)
    requires t != [] && IsDigit(t[0])
    ensures DigitPrefix(t) != [] && ParseInt(t) == Some(DigitsValue(DigitPrefix(t)) as int)
  {
    assert !IsWhitespace(t[0]);
    assert TrimStart(t) == t;
    assert SignDropped(t) == t;
  }

  lemma {:induction false} DigitPrefixOf(s: string, rest: string)
    requires forall i :: 0 <= i < |s| ==> IsDigit(s[i])
    requires rest == [] || !IsDigit(rest[0])
    ensures DigitPrefix(s + rest) == s
  {
    if s != [] {
      DigitPrefixOf(s[1..], rest);
      assert (s + rest)[1..] == s[1..] + rest;
    } else {
      assert s + rest == rest;
    }
  }

  /** `PORT`: the variable read as a decimal integer, 3000 when it is unset or empty. */
  function Port(env: Option<string>): Option<int> {
    ParseInt(EnvOr(env, "3000"))
  }

  lemma PortDefault(env: Option<string>)
    requires env.None? || env.value == ""
    ensures Port(env) == Some(3000)
  {
    assert NatToString(3000) == "3000" by {
      assert NatToString(300) == "300" by {
        assert NatToString(30) == "30";
      }
    }
    ParseIntRoundTrip(3000, "");
    assert "3000" + "" == "3000";
  }

  /** `CLAUDEKEEPER_URL`. */
  function BackendUrl(env: Option<string>): (u: string)
    ensures env.None? || env.value == "" ==> u == "http://localhost:3100"
    ensures u != ""
  {
    EnvOr(env, "http://localhost:3100")
  }

  predicate NonEmpty(s: string) { s != "" }

  /** The usable entries of `ALLOWED_ROOTS`: split at ',', trimmed, empty ones dropped. */
  function RootEntries(env: Option<string>): seq<string> {
    Filter(Map(Split(EnvOr(env, ""), ','), Trim), NonEmpty)
  }

  /** `ALLOWED_ROOTS`: the entries resolved in order, or the resolved home directory when there are none. */
  function AllowedRoots(env: Option<string>, resolve: string -> string, home: string): (roots: seq<string>)
    ensures |roots| > 0
  {
    var raw := Map(RootEntries(env), resolve);
    if |raw| > 0 then raw else [resolve(home)]
  }

  /**
   * Each root is the resolved form of a non-empty trimmed entry, every such entry
   * gives a root, in input order; with no usable entry the home directory is the only root.
   */
  lemma AllowedRootsSpec(env: Option<string>, resolve: string -> string, home: string)
    ensures var entries := RootEntries(env);
      && (forall i :: 0 <= i < |entries| ==> entries[i] != "" && entries[i] in Map(Split(EnvOr(env, ""), ','), Trim))
      && (entries != [] ==> AllowedRoots(env, resolve, home) == Map(entries, resolve))
      && (entries == [] ==> AllowedRoots(env, resolve, home) == [resolve(home)])
  {
  }

  /** An unset variable gives the home directory alone. */
  lemma AllowedRootsUnset(resolve: string -> string, home: string)
    ensures AllowedRoots(None, resolve, home) == [resolve(home)]
  {
    assert Split("", ',') == [""];
    assert Map([""], Trim) == [""] by {
      assert Trim("") == "";
    }
    assert Filter([""], NonEmpty) == [] by {
      assert !NonEmpty("");
    }
  }
}
