/**
 * The string handling of `get_domain_from_url` after `urlparse` has produced
 * the network location: one leading `www.` is removed, then everything from
 * the first `:` on (the port) is dropped.
 */
module Url {

  predicate StartsWithWww(s: string) {
    |s| >= 4 && s[..4] == "www."
  }

  /** `domain[4:]` when `domain.startswith('www.')`, else `domain`. */
  function StripWww(netloc: string): (r: string)
    ensures StartsWithWww(netloc) ==> netloc == "www." + r
    ensures !StartsWithWww(netloc) ==> r == netloc
  {
    if StartsWithWww(netloc) then netloc[4..] else netloc
  }

  /** `s.split(':')[0]`: the text before the first `:`, or all of `s`. */
  function BeforeColon(s: string): (r: string)
    ensures ':' !in r
    ensures |r| <= |s| && r == s[..|r|]
    ensures |r| < |s| ==> s[|r|] == ':'
  {
    if s == [] || s[0] == ':' then [] else [s[0]] + BeforeColon(s[1..])
  }

  /** `get_domain_from_url` from the parsed network location on. */
  function DomainFromNetloc(netloc: string): (domain: string)
    ensures ':' !in domain
    ensures var t := StripWww(netloc); |domain| <= |t| && domain == t[..|domain|]
    ensures var t := StripWww(netloc); |domain| == |t| || t[|domain|] == ':'
  {
    BeforeColon(StripWww(netloc))
  }

  /** A leading `www.` is removed, and only that. */
  lemma StripWwwPrefix(rest: string)
    ensures StripWww("www." + rest) == rest
  {
    assert ("www." + rest)[..4] == "www.";
  }

  /** A location without a colon is kept whole. */
  lemma BeforeColonNone(s: string)
    requires ':' !in s
    ensures BeforeColon(s) == s
  {
  }

  /** Only one `www.` is removed. */
  lemma WwwStrippedOnce()
    ensures DomainFromNetloc("www.www.example.com") == "www.example.com"
  {
    var rest := "www.example.com";
    assert "www.www.example.com" == "www." + rest;
    StripWwwPrefix(rest);
    BeforeColonNone(rest);
  }

  /** The port after the first colon is dropped, whatever follows it. */
  lemma {:induction false} BeforeColonSplit(host: string, rest: string)
    requires ':' !in host
    ensures BeforeColon(host + ":" + rest) == host
  {
    if host != [] {
      assert (host + ":" + rest)[1..] == host[1..] + ":" + rest;
      assert host[0] in host;
      BeforeColonSplit(host[1..], rest);
      assert host == [host[0]] + host[1..];
    }
  }

  lemma PortDropped()
    ensures DomainFromNetloc("www.example.com:8080") == "example.com"
  {
    var host, port := "example.com", "8080";
    assert "www.example.com:8080" == "www." + (host + ":" + port);
    StripWwwPrefix(host + ":" + port);
    BeforeColonSplit(host, port);
  }
}
