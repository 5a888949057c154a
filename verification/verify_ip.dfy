/**
  The `verifyIP` middleware: admit a request only from a configured
  address. The environment (`NODE_ENV`, `ALLOWED_IP_ADDRESS`,
  `ALLOWED_IP_ADDRESS_LOCAL`) and the request's addresses are parameters.
 */
module IpFilter {
  import opened Wrappers
  import opened Store
  import opened Text

  /** The `x-forwarded-for` header, else the socket's remote address, else
      the empty string (each taken only when non-empty). */
  function RawIp(forwarded: Option<string>, remote: Option<string>): string {
    if Truthy(forwarded) then forwarded.value else if Truthy(remote) then remote.value else ""
  }

  /** The prefix of an IPv4-mapped IPv6 address. */
  const MappedPrefix: string := "::ffff:"

  /** Drop the first IPv4-mapped IPv6 prefix, keep the first
      comma-separated entry, trim. */
  function NormalizeIp(raw: string): string {
    var field := FirstField(ReplaceFirst(raw, MappedPrefix, ""), ',');
    Trim(field)
  }

  /** A normalised address is one list entry: it holds no comma and has no
      white space at either end. */
  lemma NormalizeIpShape(raw: string)
    ensures ',' !in NormalizeIp(raw)
    ensures |NormalizeIp(raw)| > 0 ==>
              !IsSpace(NormalizeIp(raw)[0]) && !IsSpace(NormalizeIp(raw)[|NormalizeIp(raw)| - 1])
  {
    var field := FirstField(ReplaceFirst(raw, MappedPrefix, ""), ',');
    assert NormalizeIp(raw) == Trim(field);
    TrimEnds(field, ',');
  }

  /** An address without the mapped prefix, commas or surrounding white
      space is its own normal form. */
  lemma NormalizeIpPlain(ip: string)
    requires ',' !in ip
    requires forall j :: !OccursAt(ip, MappedPrefix, j)
    requires |ip| > 0 ==> !IsSpace(ip[0]) && !IsSpace(ip[|ip| - 1])
    ensures NormalizeIp(ip) == ip
  {
    ReplaceFirstSpec(ip, MappedPrefix, "");
    assert ReplaceFirst(ip, MappedPrefix, "") == ip;
    FirstFieldWithoutSeparator(ip, ',');
    TrimOfTrimmed(ip);
  }

  /** `NODE_ENV === "production"`. */
  predicate IsProduction(nodeEnv: Option<string>) {
    nodeEnv == Some("production")
  }

  /** `allowed.includes(ip)` over the configured entries, some of which
      may be unset. */
  predicate Listed(allowed: seq<Option<string>>, ip: string) {
    Some(ip) in allowed
  }

  /** `allowed.includes(ip)`, with `ALLOWED_IP_ADDRESS` listed always and
      `ALLOWED_IP_ADDRESS_LOCAL` only outside production. An unset entry
      matches no address. */
  function Admits(ip: string, nodeEnv: Option<string>, allowedIp: Option<string>,
                  allowedIpLocal: Option<string>): (r: bool)
    ensures r <==> allowedIp == Some(ip) || (!IsProduction(nodeEnv) && allowedIpLocal == Some(ip))
    ensures allowedIp.None? && (IsProduction(nodeEnv) || allowedIpLocal.None?) ==> !r
  {
    var allowed := if IsProduction(nodeEnv) then [allowedIp] else [allowedIp, allowedIpLocal];
    Listed(allowed, ip)
  }

  /** The middleware: `true` calls `next()`, `false` answers 403. A
      request passes exactly when its normalised address is a configured
      one that production does not exclude. */
  function VerifyIp(forwarded: Option<string>, remote: Option<string>, nodeEnv: Option<string>,
                    allowedIp: Option<string>, allowedIpLocal: Option<string>): (r: bool)
    ensures var ip := NormalizeIp(RawIp(forwarded, remote));
            r <==> allowedIp == Some(ip) || (!IsProduction(nodeEnv) && allowedIpLocal == Some(ip))
  {
    Admits(NormalizeIp(RawIp(forwarded, remote)), nodeEnv, allowedIp, allowedIpLocal)
  }

  /** In production a request from the local address alone is refused;
      in any other environment, `NODE_ENV` unset included, it is admitted. */
  lemma LocalAddressOnlyOutsideProduction(ip: string, nodeEnv: Option<string>, allowedIp: Option<string>)
    requires allowedIp != Some(ip)
    ensures Admits(ip, nodeEnv, allowedIp, Some(ip)) <==> !IsProduction(nodeEnv)
  {
  }
}
