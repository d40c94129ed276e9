/** internal/ingress/controller/nginx.go: the www redirects and the certificate tables that are
    pushed to the Lua side of the data plane (configureCertificates, buildRedirects).

    The tables are filled by plain assignments, so a later alias or redirect could take over an
    earlier server's entry.  It never does when no alias is a server's host name.
 */
module Certificates {
  import opened Matching
  import opened Strings
  import opened Types
  import opened Hostnames
  import opened Equality

  const EmptyUID: string := "-1"

  // ---------------------------------------------------------------- redirects

  datatype Redirect = Redirect(from: string, to: string, sslCert: Option<SSLCert>)

  /** The other spelling of a host name: with "www." if it has none, without if it has. */
  function OtherName(host: string): string {
    if HasPrefix(host, "www.") then host[4..] else "www." + host
  }

  function CertFor(fold: Fold, server: Server, name: string): Option<SSLCert> {
    if server.sslCert.Some? && ValidHostname(fold, name, server.sslCert.value.cn.Items())
    then server.sslCert else None
  }

  predicate IsHostname(name: string, servers: seq<Server>) {
    exists i :: 0 <= i < |servers| && servers[i].hostname == name
  }

  predicate Redirected(to: string, redirects: seq<Redirect>) {
    exists k :: 0 <= k < |redirects| && redirects[k].to == to
  }

  /** The redirects created for the first n servers. */
  function RedirectsUpTo(fold: Fold, servers: seq<Server>, n: nat): seq<Redirect>
    requires n <= |servers|
  {
    if n == 0 then [] else
    var before := RedirectsUpTo(fold, servers, n - 1);
    var server := servers[n - 1];
    var from := OtherName(server.hostname);
    if !server.redirectFromToWWW || Redirected(server.hostname, before) || IsHostname(from, servers)
    then before
    else before + [Redirect(from, server.hostname, CertFor(fold, server, from))]
  }

  function Redirects(fold: Fold, servers: seq<Server>): seq<Redirect> { RedirectsUpTo(fold, servers, |servers|) }

  lemma RedirectedAppend(redirects: seq<Redirect>, r: Redirect)
    ensures forall to :: Redirected(to, redirects + [r]) <==> Redirected(to, redirects) || to == r.to
  {
    var after := redirects + [r];
    assert after[|redirects|] == r;
    forall to | Redirected(to, redirects) ensures Redirected(to, after) {
      var k :| 0 <= k < |redirects| && redirects[k].to == to;
      assert after[k].to == to;
    }
  }

  method BuildRedirects(fold: Fold, servers: seq<Server>) returns (redirectServers: seq<Redirect>)
    ensures redirectServers == Redirects(fold, servers)
  {
    var names: set<string> := {};
    redirectServers := [];
    for i := 0 to |servers|
      invariant redirectServers == RedirectsUpTo(fold, servers, i)
      invariant forall to :: to in names <==> Redirected(to, redirectServers)
    {
      var srv := servers[i];
      if !srv.redirectFromToWWW {
        continue;
      }
      var to := srv.hostname;
      var from := if HasPrefix(to, "www.") then to[4..] else "www." + to;
      if to in names {
        continue;
      }
      var found := false;
      for j := 0 to |servers|
        invariant !found && forall k :: 0 <= k < j ==> servers[k].hostname != from
      {
        if servers[j].hostname == from {
          found := true;
          break;
        }
      }
      if found {
        continue;
      }
      assert !IsHostname(from, servers);
      var r := Redirect(from, to, None);
      if srv.sslCert.Some? {
        var valid := IsValidHostname(fold, from, srv.sslCert.value.cn.Items());
        if valid {
          r := r.(sslCert := srv.sslCert);
        }
      }
      RedirectedAppend(redirectServers, r);
      redirectServers := redirectServers + [r];
      names := names + {to};
    }
  }

  /** What makes server i the target of redirect r. */
  ghost predicate RedirectOf(fold: Fold, r: Redirect, i: nat, servers: seq<Server>)
    requires i < |servers|
  {
    && r.to == servers[i].hostname
    && servers[i].redirectFromToWWW
    && r.from == OtherName(r.to)
    && r.sslCert == CertFor(fold, servers[i], r.from)
  }

  ghost predicate HasTarget(fold: Fold, r: Redirect, servers: seq<Server>) {
    exists i :: 0 <= i < |servers| && RedirectOf(fold, r, i, servers)
  }

  lemma {:induction false} RedirectsSoundUpTo(fold: Fold, servers: seq<Server>, n: nat)
    requires n <= |servers|
    ensures forall k :: 0 <= k < |RedirectsUpTo(fold, servers, n)| ==>
              var r := RedirectsUpTo(fold, servers, n)[k];
              && !IsHostname(r.from, servers)
              && HasTarget(fold, r, servers)
    ensures forall k, l :: 0 <= k < l < |RedirectsUpTo(fold, servers, n)| ==>
              RedirectsUpTo(fold, servers, n)[k].to != RedirectsUpTo(fold, servers, n)[l].to
  {
    if n == 0 {
    } else {
      RedirectsSoundUpTo(fold, servers, n - 1);
      var before, after := RedirectsUpTo(fold, servers, n - 1), RedirectsUpTo(fold, servers, n);
      forall k | 0 <= k < |after|
        ensures !IsHostname(after[k].from, servers)
        ensures HasTarget(fold, after[k], servers)
      {
        if k < |before| {
          assert after[k] == before[k];
        } else {
          assert RedirectOf(fold, after[k], n - 1, servers);
        }
      }
    }
  }

  /** No redirect listens on a name that a server has or that a redirect leads to. */
  lemma RedirectSourcesAreFree(fold: Fold, servers: seq<Server>, k: nat, l: nat)
    requires k < |Redirects(fold, servers)| && l < |Redirects(fold, servers)|
    ensures !IsHostname(Redirects(fold, servers)[k].from, servers)
    ensures Redirects(fold, servers)[k].from != Redirects(fold, servers)[l].to
    ensures IsHostname(Redirects(fold, servers)[l].to, servers)
  {
    RedirectsSoundUpTo(fold, servers, |servers|);
  }

  /** A server that asks for a redirect gets one exactly when its other name is nobody's host name. */
  lemma RedirectCreatedIff(fold: Fold, servers: seq<Server>, i: nat)
    requires i < |servers| && servers[i].redirectFromToWWW
    ensures Redirected(servers[i].hostname, Redirects(fold, servers)) <==>
            !IsHostname(OtherName(servers[i].hostname), servers)
  {
    RedirectsSoundUpTo(fold, servers, |servers|);
    if !IsHostname(OtherName(servers[i].hostname), servers) {
      RedirectStays(fold, servers, servers[i].hostname, i + 1, |servers|);
    }
  }

  lemma {:induction false} RedirectStays(fold: Fold, servers: seq<Server>, to: string, m: nat, n: nat)
    requires 0 < m <= n <= |servers|
    requires servers[m - 1].redirectFromToWWW && servers[m - 1].hostname == to
    requires !IsHostname(OtherName(to), servers)
    ensures Redirected(to, RedirectsUpTo(fold, servers, n))
    decreases n - m
  {
    var after := RedirectsUpTo(fold, servers, n);
    if n == m {
      assert Redirected(to, RedirectsUpTo(fold, servers, n - 1)) || after[|after| - 1].to == to;
      if Redirected(to, RedirectsUpTo(fold, servers, n - 1)) {
        var k :| 0 <= k < |RedirectsUpTo(fold, servers, n - 1)| && RedirectsUpTo(fold, servers, n - 1)[k].to == to;
        assert after[k].to == to;
      }
    } else {
      RedirectStays(fold, servers, to, m, n - 1);
      var k :| 0 <= k < |RedirectsUpTo(fold, servers, n - 1)| && RedirectsUpTo(fold, servers, n - 1)[k].to == to;
      assert after[k].to == to;
    }
  }

  /** The hosts a and b have the same other name. */
  predicate NamesClash(a: string, b: string) { a == "www.www." + b && !HasPrefix(b, "www.") }

  lemma OtherNamesEqualIff(a: string, b: string)
    requires a != b
    ensures OtherName(a) == OtherName(b) <==> NamesClash(a, b) || NamesClash(b, a)
  {
    OtherNameOf(a, b);
    OtherNameOf(b, a);
    assert HasPrefix(a, "www.") ==> a == "www." + a[4..];
    assert HasPrefix(b, "www.") ==> b == "www." + b[4..];
    assert ("www." + a)[4..] == a && ("www." + b)[4..] == b;
  }

  lemma OtherNameOf(a: string, b: string)
    ensures NamesClash(a, b) <==> HasPrefix(a, "www.") && !HasPrefix(b, "www.") && a[4..] == "www." + b
  {
    assert "www." + ("www." + b) == "www.www." + b;
    if NamesClash(a, b) {
      assert a[..4] == "www." && a[4..] == "www." + b;
    }
    if HasPrefix(a, "www.") {
      assert a == "www." + a[4..];
    }
  }

  /** Two servers ask for redirects from one and the same free name. */
  ghost predicate SourcesClash(servers: seq<Server>, i: nat, j: nat)
    requires i < |servers| && j < |servers|
  {
    && servers[i].redirectFromToWWW && servers[j].redirectFromToWWW
    && NamesClash(servers[i].hostname, servers[j].hostname)
    && !IsHostname("www." + servers[j].hostname, servers)
  }

  ghost predicate DistinctSources(redirects: seq<Redirect>) {
    forall k, l :: 0 <= k < l < |redirects| ==> redirects[k].from != redirects[l].from
  }

  /** Redirects listen on distinct names exactly if no two servers clash in this way. */
  lemma RedirectSourcesDistinctIff(fold: Fold, servers: seq<Server>)
    ensures DistinctSources(Redirects(fold, servers)) <==>
            forall i, j :: 0 <= i < |servers| && 0 <= j < |servers| ==> !SourcesClash(servers, i, j)
  {
    var rs := Redirects(fold, servers);
    RedirectsSoundUpTo(fold, servers, |servers|);
    if k, l :| 0 <= k < l < |rs| && rs[k].from == rs[l].from {
      SharedSourceClashes(fold, servers, rs[k], rs[l]);
    }
    if i, j :| 0 <= i < |servers| && 0 <= j < |servers| && SourcesClash(servers, i, j) {
      ClashSharesSource(fold, servers, i, j);
    }
  }

  lemma SharedSourceClashes(fold: Fold, servers: seq<Server>, r: Redirect, t: Redirect)
    requires HasTarget(fold, r, servers) && HasTarget(fold, t, servers)
    requires r.from == t.from && r.to != t.to && !IsHostname(r.from, servers)
    ensures exists i, j :: 0 <= i < |servers| && 0 <= j < |servers| && SourcesClash(servers, i, j)
  {
    var i :| 0 <= i < |servers| && RedirectOf(fold, r, i, servers);
    var j :| 0 <= j < |servers| && RedirectOf(fold, t, j, servers);
    OtherNamesEqualIff(r.to, t.to);
    assert SourcesClash(servers, i, j) || SourcesClash(servers, j, i);
  }

  lemma ClashSharesSource(fold: Fold, servers: seq<Server>, i: nat, j: nat)
    requires i < |servers| && j < |servers| && SourcesClash(servers, i, j)
    ensures !DistinctSources(Redirects(fold, servers))
  {
    var rs := Redirects(fold, servers);
    RedirectsSoundUpTo(fold, servers, |servers|);
    OtherNamesEqualIff(servers[i].hostname, servers[j].hostname);
    RedirectCreatedIff(fold, servers, i);
    RedirectCreatedIff(fold, servers, j);
    var k :| 0 <= k < |rs| && rs[k].to == servers[i].hostname;
    var l :| 0 <= l < |rs| && rs[l].to == servers[j].hostname;
    assert HasTarget(fold, rs[k], servers) && HasTarget(fold, rs[l], servers);
    assert rs[k].from == rs[l].from && k != l;
  }

  lemma RedirectsClash(fold: Fold, d: Server, a: Server, b: Server)
    requires d.hostname == "_" && a.hostname == "b" && b.hostname == "www.www.b"
    requires a.redirectFromToWWW && b.redirectFromToWWW
    ensures !DistinctSources(Redirects(fold, [d, a, b]))
  {
    var servers := [d, a, b];
    assert "www.www." + "b" == "www.www.b" && |"www." + "b"| == 5;
    assert !IsHostname("www." + a.hostname, servers) by {
      assert |servers[0].hostname| != 5 && |servers[1].hostname| != 5 && |servers[2].hostname| != 5;
    }
    ClashSharesSource(fold, servers, 2, 1);
  }

  // ---------------------------------------------------------------- the certificate tables

  datatype CertificateTable = CertificateTable(certificates: map<string, string>, servers: map<string, string>)

  function Uid(cert: Option<SSLCert>): string {
    if cert.Some? then cert.value.uid else EmptyUID
  }

  function Configure(t: CertificateTable, hostname: string, cert: Option<SSLCert>): CertificateTable {
    var certificates :=
      if cert.Some? && cert.value.uid !in t.certificates
      then t.certificates[cert.value.uid := cert.value.pemCertKey] else t.certificates;
    CertificateTable(certificates, t.servers[hostname := Uid(cert)])
  }

  function EntriesFor(fold: Fold, server: Server, names: seq<string>): map<string, string> {
    map name | name in names :: Uid(CertFor(fold, server, name))
  }

  lemma EntriesAppend(fold: Fold, m: map<string, string>, server: Server, names: seq<string>, name: string)
    ensures m + EntriesFor(fold, server, names + [name]) ==
            (m + EntriesFor(fold, server, names))[name := Uid(CertFor(fold, server, name))]
  {
  }

  function AliasEntries(fold: Fold, server: Server): map<string, string> { EntriesFor(fold, server, server.aliases) }

  function AddServer(fold: Fold, t: CertificateTable, server: Server): CertificateTable {
    var t' := Configure(t, server.hostname, server.sslCert);
    t'.(servers := t'.servers + AliasEntries(fold, server))
  }

  function ServersTable(fold: Fold, servers: seq<Server>): CertificateTable {
    if servers == [] then CertificateTable(map[], map[])
    else AddServer(fold, ServersTable(fold, servers[..|servers| - 1]), servers[|servers| - 1])
  }

  function AddRedirects(t: CertificateTable, redirects: seq<Redirect>): CertificateTable {
    if redirects == [] then t else
    var last := redirects[|redirects| - 1];
    Configure(AddRedirects(t, redirects[..|redirects| - 1]), last.from, last.sslCert)
  }

  /** What configureCertificates posts for a list of servers. */
  function Table(fold: Fold, servers: seq<Server>): CertificateTable {
    AddRedirects(ServersTable(fold, servers), Redirects(fold, servers))
  }

  /** An alias gets the server's certificate only if that is valid for it. */
  method AliasUid(fold: Fold, rawServer: Server, alias: string) returns (uid: string)
    ensures uid == Uid(CertFor(fold, rawServer, alias))
  {
    var valid := false;
    if rawServer.sslCert.Some? {
      valid := IsValidHostname(fold, alias, rawServer.sslCert.value.cn.Items());
    }
    uid := if valid then rawServer.sslCert.value.uid else EmptyUID;
  }

  /** The loop over a server's aliases. */
  method ConfigureAliases(fold: Fold, entries: map<string, string>, rawServer: Server) returns (r: map<string, string>)
    ensures r == entries + AliasEntries(fold, rawServer)
  {
    r := entries;
    var aliases := rawServer.aliases;
    for j := 0 to |aliases|
      invariant r == entries + EntriesFor(fold, rawServer, aliases[..j])
    {
      var uid := AliasUid(fold, rawServer, aliases[j]);
      EntriesAppend(fold, entries, rawServer, aliases[..j], aliases[j]);
      assert aliases[..j + 1] == aliases[..j] + [aliases[j]];
      r := r[aliases[j] := uid];
    }
    assert aliases[..|aliases|] == aliases;
  }

  /** One round of the server loop: the host name, then the aliases. */
  method ConfigureServer(fold: Fold, configuration: CertificateTable, rawServer: Server) returns (t: CertificateTable)
    ensures t == AddServer(fold, configuration, rawServer)
  {
    t := Configure(configuration, rawServer.hostname, rawServer.sslCert);
    var entries := ConfigureAliases(fold, t.servers, rawServer);
    t := t.(servers := entries);
  }

  method ConfigureCertificates(fold: Fold, rawServers: seq<Server>) returns (configuration: CertificateTable)
    ensures configuration == Table(fold, rawServers)
  {
    configuration := CertificateTable(map[], map[]);
    for i := 0 to |rawServers|
      invariant configuration == ServersTable(fold, rawServers[..i])
    {
      configuration := ConfigureServer(fold, configuration, rawServers[i]);
      assert rawServers[..i + 1][..i] == rawServers[..i];
    }
    assert rawServers[..|rawServers|] == rawServers;
    var redirects := BuildRedirects(fold, rawServers);
    for k := 0 to |redirects|
      invariant configuration == AddRedirects(ServersTable(fold, rawServers), redirects[..k])
    {
      configuration := Configure(configuration, redirects[k].from, redirects[k].sslCert);
      assert redirects[..k + 1][..k] == redirects[..k];
    }
    assert redirects[..|redirects|] == redirects;
  }

  // ---------------------------------------------------------------- what the tables say

  ghost predicate DistinctHostnames(servers: seq<Server>) {
    forall i, j :: 0 <= i < j < |servers| ==> servers[i].hostname != servers[j].hostname
  }

  ghost predicate AliasesAvoidHostnames(servers: seq<Server>) {
    forall i, alias :: 0 <= i < |servers| && alias in servers[i].aliases ==> !IsHostname(alias, servers)
  }

  lemma {:induction false} OwnEntry(fold: Fold, servers: seq<Server>, n: nat, i: nat)
    requires i < n <= |servers|
    requires DistinctHostnames(servers) && AliasesAvoidHostnames(servers)
    ensures servers[i].hostname in ServersTable(fold, servers[..n]).servers
    ensures ServersTable(fold, servers[..n]).servers[servers[i].hostname] == Uid(servers[i].sslCert)
  {
    assert servers[..n][..n - 1] == servers[..n - 1];
    assert IsHostname(servers[i].hostname, servers);
    assert servers[i].hostname !in servers[n - 1].aliases;
    if i < n - 1 {
      OwnEntry(fold, servers, n - 1, i);
    }
  }

  lemma {:induction false} RedirectsLeave(t: CertificateTable, redirects: seq<Redirect>, name: string)
    requires name in t.servers
    requires forall k :: 0 <= k < |redirects| ==> redirects[k].from != name
    ensures name in AddRedirects(t, redirects).servers
    ensures AddRedirects(t, redirects).servers[name] == t.servers[name]
  {
    if redirects == [] {
    } else {
      RedirectsLeave(t, redirects[..|redirects| - 1], name);
    }
  }

  /** Every server's host name is served with that server's own certificate. */
  lemma HostnamesKeepOwnCertificate(fold: Fold, servers: seq<Server>, i: nat)
    requires i < |servers|
    requires DistinctHostnames(servers) && AliasesAvoidHostnames(servers)
    ensures servers[i].hostname in Table(fold, servers).servers
    ensures Table(fold, servers).servers[servers[i].hostname] == Uid(servers[i].sslCert)
  {
    OwnEntry(fold, servers, |servers|, i);
    assert servers[..|servers|] == servers;
    RedirectsSoundUpTo(fold, servers, |servers|);
    assert IsHostname(servers[i].hostname, servers);
    RedirectsLeave(ServersTable(fold, servers), Redirects(fold, servers), servers[i].hostname);
  }

  // ---------------------------------------------------------------- names that are no hostnames

  /** Server j asks for a redirect from this name. */
  predicate Diverts(servers: seq<Server>, j: nat, name: string)
    requires j < |servers|
  {
    servers[j].redirectFromToWWW && OtherName(servers[j].hostname) == name
  }

  predicate Writes(servers: seq<Server>, j: nat, name: string)
    requires j < |servers|
  {
    name in servers[j].aliases || Diverts(servers, j, name)
  }

  /** Redirects are written after all aliases, and both in the order of the servers. */
  function Turn(servers: seq<Server>, j: nat, name: string): nat
    requires j < |servers|
  {
    if Diverts(servers, j, name) then |servers| + j else j
  }

  ghost predicate WritesLast(servers: seq<Server>, j: nat, name: string)
    requires j < |servers|
  {
    && Writes(servers, j, name)
    && forall k :: 0 <= k < |servers| && Writes(servers, k, name) ==> Turn(servers, k, name) <= Turn(servers, j, name)
  }

  /** An alias is entered by the last server that has it. */
  lemma {:induction false} LastAliasEntry(fold: Fold, servers: seq<Server>, n: nat, j: nat, name: string)
    requires j < n <= |servers| && !IsHostname(name, servers) && name in servers[j].aliases
    requires forall k :: j < k < n ==> name !in servers[k].aliases
    ensures name in ServersTable(fold, servers[..n]).servers
    ensures ServersTable(fold, servers[..n]).servers[name] == Uid(CertFor(fold, servers[j], name))
  {
    assert servers[..n][..n - 1] == servers[..n - 1];
    assert servers[n - 1].hostname != name;
    if j < n - 1 {
      LastAliasEntry(fold, servers, n - 1, j, name);
    }
  }

  /** Until server j asks for a redirect from a name, no redirect is to j. */
  lemma {:induction false} NotYetRedirected(fold: Fold, servers: seq<Server>, j: nat)
    requires j < |servers| && DistinctHostnames(servers)
    ensures !Redirected(servers[j].hostname, RedirectsUpTo(fold, servers, j))
  {
    RedirectsBefore(fold, servers, j);
  }

  lemma {:induction false} RedirectsBefore(fold: Fold, servers: seq<Server>, n: nat)
    requires n <= |servers|
    ensures forall k :: 0 <= k < |RedirectsUpTo(fold, servers, n)| ==>
              exists i :: 0 <= i < n && RedirectsUpTo(fold, servers, n)[k].to == servers[i].hostname
  {
    if n == 0 {
      assert RedirectsUpTo(fold, servers, n) == [];
    } else {
      RedirectsBefore(fold, servers, n - 1);
      var before, after := RedirectsUpTo(fold, servers, n - 1), RedirectsUpTo(fold, servers, n);
      forall k | 0 <= k < |after| ensures exists i :: 0 <= i < n && after[k].to == servers[i].hostname {
        if k < |before| {
          var i :| 0 <= i < n - 1 && before[k].to == servers[i].hostname;
          assert after[k].to == servers[i].hostname;
        } else {
          assert after[k].to == servers[n - 1].hostname;
        }
      }
    }
  }

  /** The redirects of the first n servers enter the name for the last of them that asks for one from it. */
  lemma {:induction false} LastRedirectEntry(fold: Fold, t: CertificateTable, servers: seq<Server>, n: nat, j: nat,
                                             name: string)
    requires j < n <= |servers| && DistinctHostnames(servers) && !IsHostname(name, servers)
    requires Diverts(servers, j, name) && forall k :: j < k < n ==> !Diverts(servers, k, name)
    ensures
      var entries := AddRedirects(t, RedirectsUpTo(fold, servers, n)).servers;
      name in entries && entries[name] == Uid(CertFor(fold, servers[j], name))
  {
    var before, after := RedirectsUpTo(fold, servers, n - 1), RedirectsUpTo(fold, servers, n);
    assert after != before ==> after[..|after| - 1] == before;
    if j == n - 1 {
      NotYetRedirected(fold, servers, j);
    } else {
      LastRedirectEntry(fold, t, servers, n - 1, j, name);
      assert !Diverts(servers, n - 1, name);
    }
  }

  /** A name that is no hostname is entered for the last server that has it as an alias or redirects from it. */
  lemma LastWriterGivesEntry(fold: Fold, servers: seq<Server>, w: nat, name: string)
    requires w < |servers| && DistinctHostnames(servers) && !IsHostname(name, servers) && WritesLast(servers, w, name)
    ensures
      var entries := Table(fold, servers).servers;
      name in entries && entries[name] == Uid(CertFor(fold, servers[w], name))
  {
    var t, last := ServersTable(fold, servers), Turn(servers, w, name);
    assert servers[..|servers|] == servers;
    if Diverts(servers, w, name) {
      forall k | w < k < |servers| ensures !Diverts(servers, k, name) {
        assert Writes(servers, k, name) ==> Turn(servers, k, name) <= last;
      }
      LastRedirectEntry(fold, t, servers, |servers|, w, name);
    } else {
      forall k | w < k < |servers| ensures name !in servers[k].aliases {
        assert Writes(servers, k, name) ==> Turn(servers, k, name) <= last;
      }
      LastAliasEntry(fold, servers, |servers|, w, name);
      NobodyDiverts(fold, servers, w, name);
      RedirectsLeave(t, Redirects(fold, servers), name);
    }
  }

  lemma NobodyDiverts(fold: Fold, servers: seq<Server>, w: nat, name: string)
    requires w < |servers| && WritesLast(servers, w, name) && !Diverts(servers, w, name)
    ensures forall k :: 0 <= k < |Redirects(fold, servers)| ==> Redirects(fold, servers)[k].from != name
  {
    RedirectsSoundUpTo(fold, servers, |servers|);
    var rs, last := Redirects(fold, servers), Turn(servers, w, name);
    forall k | 0 <= k < |rs| ensures rs[k].from != name {
      var i :| 0 <= i < |servers| && RedirectOf(fold, rs[k], i, servers);
      assert Writes(servers, i, name) ==> Turn(servers, i, name) <= last;
    }
  }

  /** Somebody writes last. */
  lemma {:induction false} LastWriter(servers: seq<Server>, i: nat, name: string) returns (w: nat)
    requires i < |servers| && Writes(servers, i, name)
    ensures w < |servers| && WritesLast(servers, w, name)
    decreases 2 * |servers| - Turn(servers, i, name)
  {
    if k :| 0 <= k < |servers| && Writes(servers, k, name) && Turn(servers, k, name) > Turn(servers, i, name) {
      w := LastWriter(servers, k, name);
    } else {
      w := i;
    }
  }

  /** Another server writes the name after this one. */
  ghost predicate TakenOver(servers: seq<Server>, i: nat, name: string)
    requires i < |servers|
  {
    exists k :: 0 <= k < |servers| && Writes(servers, k, name) && Turn(servers, k, name) > Turn(servers, i, name)
  }

  /** The alias has the entry of its own server exactly if no server writes it later, or w, the last to do so, has a
      certificate for it with the same UID. */
  ghost predicate KeepsOwnIff(fold: Fold, servers: seq<Server>, i: nat, w: nat, alias: string)
    requires i < |servers| && w < |servers|
  {
    var entries, own := Table(fold, servers).servers, Uid(CertFor(fold, servers[i], alias));
    alias in entries &&
    (entries[alias] == own <==> !TakenOver(servers, i, alias) || Uid(CertFor(fold, servers[w], alias)) == own)
  }

  lemma AliasKeepsOwnCertificateIff(fold: Fold, servers: seq<Server>, i: nat, w: nat, alias: string)
    requires i < |servers| && w < |servers| && alias in servers[i].aliases
    requires DistinctHostnames(servers) && AliasesAvoidHostnames(servers) && WritesLast(servers, w, alias)
    ensures w == i <==> !TakenOver(servers, i, alias)
    ensures KeepsOwnIff(fold, servers, i, w, alias)
  {
    LastWriterGivesEntry(fold, servers, w, alias);
    assert Writes(servers, i, alias);
    if w != i {
      assert Turn(servers, w, alias) > Turn(servers, i, alias);
    }
  }

  /** Two servers share an alias: the second has it. */
  lemma SharedAliasTakenOver(fold: Fold, d: Server, a: Server, b: Server)
    requires d.hostname == "_" && a.hostname == "a" && b.hostname == "b"
    requires !d.redirectFromToWWW && !a.redirectFromToWWW && !b.redirectFromToWWW
    requires d.aliases == [] && a.aliases == ["x"] && b.aliases == ["x"]
    requires Uid(CertFor(fold, a, "x")) != Uid(CertFor(fold, b, "x"))
    ensures
      var entries := Table(fold, [d, a, b]).servers;
      "x" in entries && entries["x"] != Uid(CertFor(fold, a, "x"))
  {
    var servers := [d, a, b];
    assert "_"[0] != "a"[0] && "_"[0] != "b"[0] && "a"[0] != "b"[0];
    assert "x"[0] != "_"[0] && "x"[0] != "a"[0] && "x"[0] != "b"[0];
    assert WritesLast(servers, 2, "x");
    LastWriterGivesEntry(fold, servers, 2, "x");
  }

  /** The two halves of the table fit together, and hold nothing that no server brought. */
  ghost predicate Coherent(t: CertificateTable, servers: seq<Server>) {
    && (forall h :: h in t.servers ==> t.servers[h] == EmptyUID || t.servers[h] in t.certificates)
    && (forall uid :: uid in t.certificates ==>
          exists i :: 0 <= i < |servers| && Brings(servers[i], uid, t.certificates[uid]))
  }

  ghost predicate Brings(server: Server, uid: string, pem: string) {
    server.sslCert.Some? && server.sslCert.value.uid == uid && server.sslCert.value.pemCertKey == pem
  }

  lemma ConfigureCoherent(t: CertificateTable, name: string, cert: Option<SSLCert>, servers: seq<Server>, i: nat)
    requires Coherent(t, servers) && i < |servers|
    requires cert.Some? ==> cert == servers[i].sslCert
    ensures Coherent(Configure(t, name, cert), servers)
  {
    if cert.Some? {
      assert Brings(servers[i], cert.value.uid, cert.value.pemCertKey);
    }
  }

  lemma AddServerCoherent(fold: Fold, t: CertificateTable, servers: seq<Server>, i: nat)
    requires Coherent(t, servers) && i < |servers|
    ensures Coherent(AddServer(fold, t, servers[i]), servers)
  {
    var server := servers[i];
    ConfigureCoherent(t, server.hostname, server.sslCert, servers, i);
    var t1 := Configure(t, server.hostname, server.sslCert);
    var t2 := AddServer(fold, t, server);
    assert t2.certificates == t1.certificates;
    forall h | h in t2.servers ensures t2.servers[h] == EmptyUID || t2.servers[h] in t2.certificates {
      assert h !in AliasEntries(fold, server) ==> h in t1.servers;
    }
  }

  lemma {:induction false} ServersTableCoherent(fold: Fold, servers: seq<Server>, n: nat)
    requires n <= |servers|
    ensures Coherent(ServersTable(fold, servers[..n]), servers)
  {
    if n == 0 {
    } else {
      ServersTableCoherent(fold, servers, n - 1);
      assert servers[..n][..n - 1] == servers[..n - 1];
      AddServerCoherent(fold, ServersTable(fold, servers[..n - 1]), servers, n - 1);
    }
  }

  lemma {:induction false} RedirectsCoherent(fold: Fold, t: CertificateTable, redirects: seq<Redirect>,
                                             servers: seq<Server>)
    requires Coherent(t, servers)
    requires forall r :: r in redirects ==> HasTarget(fold, r, servers)
    ensures Coherent(AddRedirects(t, redirects), servers)
  {
    if redirects == [] {
    } else {
      var init, last := redirects[..|redirects| - 1], redirects[|redirects| - 1];
      RedirectsCoherent(fold, t, init, servers);
      assert HasTarget(fold, last, servers);
      var i :| 0 <= i < |servers| && RedirectOf(fold, last, i, servers);
      ConfigureCoherent(AddRedirects(t, init), last.from, last.sslCert, servers, i);
    }
  }

  /** Every certificate the server table names is in the certificate table, under some server's own key. */
  lemma TableCoherent(fold: Fold, servers: seq<Server>)
    ensures Coherent(Table(fold, servers), servers)
  {
    ServersTableCoherent(fold, servers, |servers|);
    assert servers[..|servers|] == servers;
    RedirectsSoundUpTo(fold, servers, |servers|);
    RedirectsCoherent(fold, ServersTable(fold, servers), Redirects(fold, servers), servers);
  }

  /** If equal UIDs mean equal key material, a TLS handshake for a server's name gets that server's key. */
  lemma HandshakeGetsOwnKey(fold: Fold, servers: seq<Server>, i: nat)
    requires i < |servers| && servers[i].sslCert.Some? && servers[i].sslCert.value.uid != EmptyUID
    requires DistinctHostnames(servers) && AliasesAvoidHostnames(servers)
    requires forall j, k :: 0 <= j < |servers| && 0 <= k < |servers|
               && servers[j].sslCert.Some? && servers[k].sslCert.Some?
               && servers[j].sslCert.value.uid == servers[k].sslCert.value.uid
               ==> servers[j].sslCert.value.pemCertKey == servers[k].sslCert.value.pemCertKey
    ensures
      var t := Table(fold, servers);
      && servers[i].hostname in t.servers
      && t.servers[servers[i].hostname] in t.certificates
      && t.certificates[t.servers[servers[i].hostname]] == servers[i].sslCert.value.pemCertKey
  {
    HostnamesKeepOwnCertificate(fold, servers, i);
    TableCoherent(fold, servers);
  }

  // ---------------------------------------------------------------- equal servers, equal tables

  lemma SameNamesSameValidity(fold: Fold, a: SSLCert, b: SSLCert, name: string)
    requires EqualCert(Some(a), Some(b))
    ensures ValidHostname(fold, name, a.cn.Items()) <==> ValidHostname(fold, name, b.cn.Items())
  {
    if a.cn.Of? {
      GreedyIsMultisetEquality(a.cn.items, b.cn.items);
      forall cn ensures cn in a.cn.items <==> cn in b.cn.items {
        assert cn in multiset(a.cn.items) <==> cn in multiset(b.cn.items);
      }
    }
  }

  predicate SameKey(a: Option<SSLCert>, b: Option<SSLCert>) {
    a.Some? == b.Some? && (a.Some? ==> a.value.uid == b.value.uid && a.value.pemCertKey == b.value.pemCertKey)
  }

  lemma SameCertFor(fold: Fold, a: Server, b: Server, name: string)
    requires EqualServer(a, b)
    ensures SameKey(CertFor(fold, a, name), CertFor(fold, b, name))
  {
    if a.sslCert.Some? {
      SameNamesSameValidity(fold, a.sslCert.value, b.sslCert.value, name);
    }
  }

  lemma SameAliasEntries(fold: Fold, a: Server, b: Server)
    requires NoDuplicates(a.aliases, Identical) && EqualServer(a, b)
    ensures AliasEntries(fold, a) == AliasEntries(fold, b)
  {
    ServerSymmetric(a, b);
    EachFoundIsSetEquality(a.aliases, b.aliases);
    forall alias ensures alias in a.aliases <==> alias in b.aliases {
      assert alias in (set x | x in a.aliases) <==> alias in (set y | y in b.aliases);
    }
    forall alias | alias in a.aliases ensures AliasEntries(fold, a)[alias] == AliasEntries(fold, b)[alias] {
      SameCertFor(fold, a, b, alias);
    }
  }

  lemma {:induction false} SameServersTable(fold: Fold, a: seq<Server>, b: seq<Server>)
    requires Pointwise(a, b, EqualServer)
    requires forall i :: 0 <= i < |a| ==> NoDuplicates(a[i].aliases, Identical)
    ensures ServersTable(fold, a) == ServersTable(fold, b)
  {
    if a == [] {
    } else {
      var n := |a| - 1;
      SameServersTable(fold, a[..n], b[..n]);
      assert EqualServer(a[n], b[n]);
      SameAliasEntries(fold, a[n], b[n]);
    }
  }

  lemma {:induction false} SameRedirects(fold: Fold, a: seq<Server>, b: seq<Server>, n: nat)
    requires Pointwise(a, b, EqualServer) && n <= |a|
    ensures Pointwise(RedirectsUpTo(fold, a, n), RedirectsUpTo(fold, b, n), SameRedirect)
  {
    if n == 0 {
    } else {
      SameRedirects(fold, a, b, n - 1);
      assert EqualServer(a[n - 1], b[n - 1]);
      forall i | 0 <= i < |a| ensures a[i].hostname == b[i].hostname {
        assert EqualServer(a[i], b[i]);
      }
      SameCertFor(fold, a[n - 1], b[n - 1], OtherName(a[n - 1].hostname));
      SameRedirected(RedirectsUpTo(fold, a, n - 1), RedirectsUpTo(fold, b, n - 1), a[n - 1].hostname);
      SameHostname(a, b, OtherName(a[n - 1].hostname));
    }
  }

  predicate SameRedirect(r: Redirect, s: Redirect) { r.from == s.from && r.to == s.to && SameKey(r.sslCert, s.sslCert) }

  lemma SameRedirected(a: seq<Redirect>, b: seq<Redirect>, to: string)
    requires Pointwise(a, b, SameRedirect)
    ensures Redirected(to, a) <==> Redirected(to, b)
  {
    assert forall k :: 0 <= k < |a| ==> SameRedirect(a[k], b[k]);
  }

  lemma SameHostname(a: seq<Server>, b: seq<Server>, name: string)
    requires |a| == |b| && forall i :: 0 <= i < |a| ==> a[i].hostname == b[i].hostname
    ensures IsHostname(name, a) <==> IsHostname(name, b)
  {
  }

  lemma {:induction false} SameAddRedirects(t: CertificateTable, a: seq<Redirect>, b: seq<Redirect>)
    requires Pointwise(a, b, SameRedirect)
    ensures AddRedirects(t, a) == AddRedirects(t, b)
  {
    if a == [] {
    } else {
      SameAddRedirects(t, a[..|a| - 1], b[..|b| - 1]);
      assert SameRedirect(a[|a| - 1], b[|b| - 1]);
    }
  }

  /** Server lists that count as equal push identical tables, whatever order their aliases and names are in. */
  lemma EqualServersSameTable(fold: Fold, a: seq<Server>, b: seq<Server>)
    requires Pointwise(a, b, EqualServer)
    requires forall i :: 0 <= i < |a| ==> NoDuplicates(a[i].aliases, Identical)
    ensures Table(fold, a) == Table(fold, b)
  {
    SameServersTable(fold, a, b);
    SameRedirects(fold, a, b, |a|);
    SameAddRedirects(ServersTable(fold, a), Redirects(fold, a), Redirects(fold, b));
  }
}
