/** A stand-in for the hostname normaliser the parser delegates to.  The real normaliser
    (IDNA mapping, punycode, default-port removal) is a separate library; this one keeps
    the shape the parser relies on: it either fails with a message or returns a lower-cased
    host name with an optional numeric port, and it is idempotent on its own output. */
module SvcHost {
  import opened Wrappers
  import Strings
  import Unicode

  /** A normalised host name, optionally followed by ":" and a port. */
  datatype Hostname = Hostname(name: string)

  const MsgTooManyColons := "too many colons"
  const MsgBadName := "hostname contains characters that are not allowed"
  const MsgBadPort := "port must be a decimal number"

  predicate IsHostChar(c: char) {
    'a' <= c <= 'z' || 'A' <= c <= 'Z' || '0' <= c <= '9' || c == '-' || c == '.'
  }

  predicate IsHostName(s: string) {
    |s| > 0 && forall i :: 0 <= i < |s| ==> IsHostChar(s[i])
  }

  predicate IsPort(s: string) {
    |s| > 0 && forall i :: 0 <= i < |s| ==> '0' <= s[i] <= '9'
  }

  /** Normalises a host name given by the user, for comparison. */
  function ForComparison(given: string): (r: Result<Hostname, string>)
    ensures r.Success? ==> IsNormalName(r.value.name)
  {
    var parts := Strings.Split(given, ':');
    if |parts| > 2 then Failure(MsgTooManyColons)
    else if !IsHostName(parts[0]) then Failure(MsgBadName)
    else if |parts| == 2 && !IsPort(parts[1]) then Failure(MsgBadPort)
    else
      var host := Unicode.Lower(parts[0]);
      LowerKeepsHostName(parts[0]);
      if |parts| == 1 then Success(Hostname(host))
      else
        PortNameIsNormal(host, parts[1]);
        Success(Hostname(host + [':'] + parts[1]))
  }

  /** A lower-case host name, a colon and a port make a normalised name. */
  lemma PortNameIsNormal(host: string, port: string)
    requires IsHostName(host) && Unicode.Lower(host) == host && IsPort(port)
    ensures IsNormalName(host + [':'] + port)
  {
    var name := host + [':'] + port;
    var k := |host|;
    assert name[k] == ':' && name[..k] == host && name[k + 1..] == port;
  }

  /** The shape of a normalised name: a lower-case host name and an optional port. */
  predicate IsNormalName(name: string) {
    || (IsHostName(name) && Unicode.Lower(name) == name)
    || exists k :: 0 <= k < |name| && name[k] == ':' && IsHostName(name[..k]) && Unicode.Lower(name[..k]) == name[..k] && IsPort(name[k + 1..])
  }

  /** Folding case keeps a host name a host name. */
  lemma LowerKeepsHostName(s: string)
    requires IsHostName(s)
    ensures IsHostName(Unicode.Lower(s))
    ensures Unicode.Lower(Unicode.Lower(s)) == Unicode.Lower(s)
  {
    Unicode.LowerIdempotent(s);
  }

  /** A normalised name is never empty and never holds a slash, so it can stand as the
      first segment of a provider source string. */
  lemma NormalNameIsSegment(name: string)
    requires IsNormalName(name)
    ensures |name| > 0 && '/' !in name
  {
    if !(IsHostName(name) && Unicode.Lower(name) == name) {
      var k :| 0 <= k < |name| && name[k] == ':' && IsHostName(name[..k]) && Unicode.Lower(name[..k]) == name[..k] && IsPort(name[k + 1..]);
      forall i | 0 <= i < |name|
        ensures name[i] != '/'
      {
        if i < k {
          assert name[i] == name[..k][i];
        } else if i > k {
          assert name[i] == name[k + 1..][i - k - 1];
        }
      }
    }
  }

  /** Every character of an accepted input is a host-name character or the port colon. */
  lemma AcceptedCharacters(given: string)
    requires ForComparison(given).Success?
    ensures forall i :: 0 <= i < |given| ==> IsHostChar(given[i]) || given[i] == ':'
  {
    var parts := Strings.Split(given, ':');
    Strings.JoinSplit(given, ':');
    if |parts| == 2 {
      assert Strings.Join(parts, ':') == parts[0] + [':'] + parts[1];
    }
  }

  /** The display form of a normalised host name. */
  function ForDisplay(h: Hostname): string {
    h.name
  }

  /** Normalising the display form of a normalised host name gives it back. */
  lemma ForComparisonIdempotent(given: string)
    requires ForComparison(given).Success?
    ensures ForComparison(ForDisplay(ForComparison(given).value)) == ForComparison(given)
  {
    var parts := Strings.Split(given, ':');
    var host := Unicode.Lower(parts[0]);
    LowerKeepsHostName(parts[0]);
    assert ':' !in host;
    if |parts| == 1 {
      Strings.SplitNoSep(host, ':');
    } else {
      Strings.SplitTwo(host, parts[1], ':');
    }
  }

  /** The empty host name is rejected. */
  lemma EmptyHostRejected()
    ensures ForComparison("").Failure?
  {
  }

  /** A lower-case host name without a port is its own normal form. */
  lemma PlainHostName(s: string)
    requires IsHostName(s) && ':' !in s && Unicode.Lower(s) == s
    ensures ForComparison(s) == Success(Hostname(s))
  {
    Strings.SplitNoSep(s, ':');
  }

  /** A lower-case host name with a numeric port is its own normal form. */
  lemma HostNameWithPort(h: string, port: string)
    requires IsHostName(h) && ':' !in h && Unicode.Lower(h) == h && IsPort(port)
    ensures ForComparison(h + ":" + port) == Success(Hostname(h + ":" + port))
  {
    assert ':' !in port by {
      forall i | 0 <= i < |port|
        ensures port[i] != ':'
      {
      }
    }
    Strings.SplitTwo(h, port, ':');
    assert h + [':'] + port == h + ":" + port;
  }
}
