/** Tenant resolution of app/middleware/tenant.py: a subdomain of the Host header, else the
    X-Tenant-ID header. Headers are given as optional strings (None when absent). */
module Tenant {
  import opened Errors

  /** The number of occurrences of c in s. */
  function Occurrences(s: string, c: char): nat
  {
    if s == [] then 0 else (if s[0] == c then 1 else 0) + Occurrences(s[1..], c)
  }

  /** The inverse of Split: the parts glued back together with the separator between them. */
  function Join(parts: seq<string>, sep: char): string
    requires |parts| >= 1
  {
    if |parts| == 1 then parts[0] else parts[0] + [sep] + Join(parts[1..], sep)
  }

  /** Python's `s.split(sep)` for a one-character separator: every occurrence splits, so the
      empty string gives one empty part and a leading separator gives an empty first part. */
  function Split(s: string, sep: char): (parts: seq<string>)
    ensures |parts| == Occurrences(s, sep) + 1
    ensures forall i :: 0 <= i < |parts| ==> sep !in parts[i]
    ensures Join(parts, sep) == s
  {
    if s == [] then [""]
    else if s[0] == sep then
      var rest := Split(s[1..], sep);
      assert s == [sep] + s[1..];
      [""] + rest
    else
      var rest := Split(s[1..], sep);
      var parts := [[s[0]] + rest[0]] + rest[1..];
      assert parts[1..] == rest[1..];
      assert s == [s[0]] + s[1..];
      parts
  }

  /** Splitting a join of separator-free parts gives the parts back. */
  lemma {:induction false} SplitJoin(parts: seq<string>, sep: char)
    requires |parts| >= 1
    requires forall i :: 0 <= i < |parts| ==> sep !in parts[i]
    ensures Split(Join(parts, sep), sep) == parts
  {
    if |parts| == 1 {
      SplitFree(parts[0], sep);
    } else {
      SplitJoin(parts[1..], sep);
      SplitPrefix(parts[0], sep, Join(parts[1..], sep));
    }
  }

  /** A string without the separator is a single part. */
  lemma {:induction false} SplitFree(s: string, sep: char)
    requires sep !in s
    ensures Split(s, sep) == [s]
  {
    if s != [] {
      SplitFree(s[1..], sep);
    }
  }

  /** Splitting `p + [sep] + t` with p separator-free gives p, then the parts of t. */
  lemma {:induction false} SplitPrefix(p: string, sep: char, t: string)
    requires sep !in p
    ensures Split(p + [sep] + t, sep) == [p] + Split(t, sep)
  {
    var s := p + [sep] + t;
    if p == [] {
      assert s[1..] == t;
    } else {
      assert s[0] == p[0] != sep;
      assert s[1..] == p[1..] + [sep] + t;
      SplitPrefix(p[1..], sep, t);
      assert [p[0]] + p[1..] == p;
    }
  }

  /** `get_subdomain_from_host`: with three or more dot-separated parts, the first one. A missing
      Host header counts as the empty string. */
  function SubdomainFromHost(host: Option<string>): (r: Option<string>)
    ensures r.Some? <==> Occurrences(host.GetOr(""), '.') >= 2
    ensures r.Some? ==> '.' !in r.value && r.value + ['.'] <= host.GetOr("")
  {
    var h := host.GetOr("");
    var parts := Split(h, '.');
    if |parts| >= 3 then
      assert h == parts[0] + ['.'] + Join(parts[1..], '.');
      Some(parts[0])
    else
      None
  }

  /** `get_tenant`: a non-empty host subdomain, else the X-Tenant-ID header (possibly None). */
  function GetTenant(host: Option<string>, tenantHeader: Option<string>): (r: Option<string>)
    ensures r == tenantHeader
      || (Occurrences(host.GetOr(""), '.') >= 2 && r.Some? && r.value != ""
          && '.' !in r.value && r.value + ['.'] <= host.GetOr(""))
    ensures Occurrences(host.GetOr(""), '.') < 2 ==> r == tenantHeader
  {
    var sub := SubdomainFromHost(host);
    if sub.Some? && sub.value != "" then sub else tenantHeader
  }

  /** A host with three or more parts and a non-empty first part names the tenant; the header is
      not consulted. */
  lemma {:induction false} SubdomainWins(sub: string, domain: seq<string>, tenantHeader: Option<string>)
    requires sub != [] && '.' !in sub
    requires |domain| >= 2 && forall i :: 0 <= i < |domain| ==> '.' !in domain[i]
    ensures GetTenant(Some(Join([sub] + domain, '.')), tenantHeader) == Some(sub)
  {
    var parts := [sub] + domain;
    SplitJoin(parts, '.');
    assert Split(Join(parts, '.'), '.') == parts;
  }

  /** Without a usable subdomain the header decides, and with neither the tenant is None. */
  lemma HeaderFallback(host: Option<string>, tenantHeader: Option<string>)
    requires Occurrences(host.GetOr(""), '.') < 2 || host.GetOr("")[0] == '.'
    ensures GetTenant(host, tenantHeader) == tenantHeader
  {
    var sub := SubdomainFromHost(host);
    if sub.Some? {
      assert sub.value + ['.'] <= host.GetOr("");
    }
  }
}
