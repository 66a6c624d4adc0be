/** Project definitions: what Validate accepts, the host mapping it makes well defined, and
    the resolution of a request to a project. */
module Config {
  import opened Tables

  datatype Definition = Definition(name: string, hostMapping: string, recipients: seq<string>, schedule: string,
                                   templatePath: string)

  datatype Projects = Projects(headerName: string, defaultSlug: string, definitions: map<string, Definition>)

  const DEFAULT_HEADER_NAME := "X-Project-ID"
  const DEFAULT_SLUG := "default"

  /** A sequence in which a Go range loop may visit the definitions. */
  ghost predicate Visits(order: seq<string>, keys: set<string>) {
    && (forall i :: 0 <= i < |order| ==> order[i] in keys)
    && (forall k :: k in keys ==> k in order)
    && (forall i, j :: 0 <= i < j < |order| ==> order[i] != order[j])
  }

  ghost predicate UniqueHosts(p: Projects) {
    forall a, b :: a in p.definitions && b in p.definitions && a != b && p.definitions[a].hostMapping != "" ==>
                     p.definitions[a].hostMapping != p.definitions[b].hostMapping
  }

  /** The schedule parses where a digest is configured, and the template file is there. */
  predicate DefinitionOk(d: Definition, crons: set<string>, files: set<string>) {
    && (d.recipients != [] && d.schedule != "" ==> d.schedule in crons)
    && (d.templatePath != "" ==> d.templatePath in files)
  }

  ghost predicate WellConfigured(p: Projects, crons: set<string>, files: set<string>) {
    && p.defaultSlug in p.definitions
    && UniqueHosts(p)
    && forall s :: s in p.definitions ==> DefinitionOk(p.definitions[s], crons, files)
  }

  /** `seen` maps each host claimed so far to the one definition claiming it. */
  ghost predicate Claimed(p: Projects, visited: seq<string>, seen: map<string, string>) {
    && (forall h :: h in seen ==>
          seen[h] in visited && seen[h] in p.definitions && p.definitions[seen[h]].hostMapping == h)
    && (forall s :: s in visited && s in p.definitions && p.definitions[s].hostMapping != "" ==>
          p.definitions[s].hostMapping in seen && seen[p.definitions[s].hostMapping] == s)
  }

  lemma AllClaimed(p: Projects, order: seq<string>, seen: map<string, string>)
    requires Visits(order, p.definitions.Keys) && Claimed(p, order, seen)
    ensures UniqueHosts(p)
  {
  }

  lemma ClaimNext(p: Projects, visited: seq<string>, seen: map<string, string>, slug: string)
    requires Claimed(p, visited, seen) && slug in p.definitions && slug !in visited
    ensures var host := p.definitions[slug].hostMapping;
            && (host == "" ==> Claimed(p, visited + [slug], seen))
            && (host != "" && host !in seen ==> Claimed(p, visited + [slug], seen[host := slug]))
            && (host != "" && host in seen ==> !UniqueHosts(p))
  {
  }

  method CheckDefinition(def: Definition, crons: set<string>, files: set<string>) returns (ok: bool)
    ensures ok <==> DefinitionOk(def, crons, files)
  {
    if def.recipients != [] && def.schedule != "" {
      if def.schedule !in crons {
        return false;
      }
    }
    if def.templatePath != "" {
      if def.templatePath !in files {
        return false;
      }
    }
    return true;
  }

  /** Validate accepts exactly the well-configured definitions, in whatever order it visits
      them; `crons` are the schedules that parse, `files` the paths that exist. */
  method Validate(p: Projects, crons: set<string>, files: set<string>, order: seq<string>) returns (ok: bool)
    requires Visits(order, p.definitions.Keys)
    ensures ok <==> WellConfigured(p, crons, files)
  {
    if |p.definitions| == 0 {
      return false;
    }
    if p.defaultSlug !in p.definitions {
      return false;
    }
    var seen: map<string, string> := map[];
    var i := 0;
    while i < |order|
      invariant 0 <= i <= |order| && Claimed(p, order[..i], seen)
      invariant forall k :: 0 <= k < i ==> DefinitionOk(p.definitions[order[k]], crons, files)
    {
      var slug, def := order[i], p.definitions[order[i]];
      assert order[..i + 1] == order[..i] + [slug] && slug !in order[..i];
      ClaimNext(p, order[..i], seen, slug);
      if def.hostMapping != "" {
        if def.hostMapping in seen {
          return false;
        }
        seen := seen[def.hostMapping := slug];
      }
      ok := CheckDefinition(def, crons, files);
      if !ok {
        return false;
      }
      i := i + 1;
    }
    assert order[..i] == order;
    AllClaimed(p, order, seen);
    return true;
  }

  // ---------- host mapping ----------

  /** The map a range loop in the given order builds; a later slug overwrites. */
  function HostMapping(p: Projects, order: seq<string>): map<string, string>
    requires forall i :: 0 <= i < |order| ==> order[i] in p.definitions
  {
    if order == [] then map[]
    else
      var slug := order[|order| - 1];
      var rest := HostMapping(p, order[..|order| - 1]);
      if p.definitions[slug].hostMapping != "" then rest[p.definitions[slug].hostMapping := slug] else rest
  }

  method BuildHostMapping(p: Projects, order: seq<string>) returns (m: map<string, string>)
    requires Visits(order, p.definitions.Keys)
    ensures m == HostMapping(p, order)
  {
    m := map[];
    for i := 0 to |order|
      invariant m == HostMapping(p, order[..i])
    {
      assert order[..i + 1][..i] == order[..i];
      var slug, def := order[i], p.definitions[order[i]];
      if def.hostMapping != "" {
        m := m[def.hostMapping := slug];
      }
    }
    assert order[..|order|] == order;
  }

  lemma {:induction false} HostsOf(p: Projects, order: seq<string>)
    requires forall i :: 0 <= i < |order| ==> order[i] in p.definitions
    ensures forall h :: h in HostMapping(p, order) ==>
                          && h != "" && HostMapping(p, order)[h] in order
                          && p.definitions[HostMapping(p, order)[h]].hostMapping == h
    ensures forall i :: 0 <= i < |order| && p.definitions[order[i]].hostMapping != "" ==>
                          p.definitions[order[i]].hostMapping in HostMapping(p, order)
  {
    if order != [] {
      HostsOf(p, order[..|order| - 1]);
    }
  }

  lemma SameForEveryOrder(p: Projects, o1: seq<string>, o2: seq<string>)
    requires UniqueHosts(p) && Visits(o1, p.definitions.Keys) && Visits(o2, p.definitions.Keys)
    ensures HostMapping(p, o1) == HostMapping(p, o2)
  {
    HostsOf(p, o1);
    HostsOf(p, o2);
    var m1, m2 := HostMapping(p, o1), HostMapping(p, o2);
    forall h | h in m1 ensures h in m2 && m1[h] == m2[h] {
      var i :| 0 <= i < |o2| && o2[i] == m1[h];
    }
    forall h | h in m2 ensures h in m1 {
      var i :| 0 <= i < |o1| && o1[i] == m2[h];
    }
  }

  lemma SomeOrder(keys: set<string>) returns (order: seq<string>)
    ensures Visits(order, keys)
    decreases |keys|
  {
    if keys == {} {
      order := [];
    } else {
      var k :| k in keys;
      var rest := SomeOrder(keys - {k});
      order := rest + [k];
    }
  }

  ghost predicate OrderIndependent(p: Projects) {
    forall o1, o2 :: Visits(o1, p.definitions.Keys) && Visits(o2, p.definitions.Keys) ==>
                       HostMapping(p, o1) == HostMapping(p, o2)
  }

  /** The mapping does not depend on Go's map order exactly when no two projects claim the
      same host, which is what Validate checks. */
  lemma OrderIndependentExactly(p: Projects)
    ensures OrderIndependent(p) <==> UniqueHosts(p)
  {
    if UniqueHosts(p) {
      forall o1, o2 | Visits(o1, p.definitions.Keys) && Visits(o2, p.definitions.Keys)
        ensures HostMapping(p, o1) == HostMapping(p, o2)
      {
        SameForEveryOrder(p, o1, o2);
      }
    } else {
      var a, b :| a in p.definitions && b in p.definitions && a != b && p.definitions[a].hostMapping != ""
                  && p.definitions[a].hostMapping == p.definitions[b].hostMapping;
      LastWins(p, a, b);
    }
  }

  lemma VisitsTwoMore(keys: set<string>, rest: seq<string>, a: string, b: string)
    requires a in keys && b in keys && a != b && Visits(rest, keys - {a, b})
    ensures Visits(rest + [a, b], keys)
  {
    var order := rest + [a, b];
    assert order[|rest|] == a && order[|rest| + 1] == b;
    forall k | k in keys ensures k in order {
      if k != a && k != b { assert k in rest; }
    }
  }

  lemma LastWins(p: Projects, a: string, b: string)
    requires a in p.definitions && b in p.definitions && a != b && p.definitions[a].hostMapping != ""
    requires p.definitions[a].hostMapping == p.definitions[b].hostMapping
    ensures !OrderIndependent(p)
  {
    var rest := SomeOrder(p.definitions.Keys - {a, b});
    assert {a, b} == {b, a};
    var o1, o2 := rest + [a, b], rest + [b, a];
    var h := p.definitions[a].hostMapping;
    VisitsTwoMore(p.definitions.Keys, rest, a, b);
    VisitsTwoMore(p.definitions.Keys, rest, b, a);
    assert HostMapping(p, o1)[h] == b;
    assert HostMapping(p, o2)[h] == a;
  }

  // ---------- resolution ----------

  datatype Outcome = Resolved(slug: string) | NoProject | UnknownProject(slug: string)

  class ProjectResolver {
    const headerName: string
    const defaultSlug: string
    const hostMapping: map<string, string>
    var projects: map<string, Definition>

    constructor (headerName: string, defaultSlug: string, hostMapping: map<string, string>, slugs: seq<string>,
                 defs: seq<Definition>)
      requires |slugs| == |defs|
      ensures this.headerName == headerName && this.defaultSlug == defaultSlug && this.hostMapping == hostMapping
      ensures projects.Keys == set s | s in slugs
      ensures forall s :: s in projects ==> exists i :: 0 <= i < |slugs| && slugs[i] == s && defs[i] == projects[s]
    {
      this.headerName, this.defaultSlug, this.hostMapping := headerName, defaultSlug, hostMapping;
      projects := map[];
      new;
      Reload(slugs, defs);
    }

    /** Replaces the whole cache; slugs no longer listed are gone. */
    method Reload(slugs: seq<string>, defs: seq<Definition>)
      requires |slugs| == |defs|
      modifies this
      ensures projects.Keys == set s | s in slugs
      ensures forall s :: s in projects ==> exists i :: 0 <= i < |slugs| && slugs[i] == s && defs[i] == projects[s]
    {
      var m: map<string, Definition> := map[];
      for i := 0 to |slugs|
        invariant m.Keys == set s | s in slugs[..i]
        invariant forall s :: s in m ==> exists k :: 0 <= k < i && slugs[k] == s && defs[k] == m[s]
      {
        assert slugs[..i + 1] == slugs[..i] + [slugs[i]];
        m := m[slugs[i] := defs[i]];
      }
      assert slugs[..|slugs|] == slugs;
      projects := m;
    }

    /** Every host points to a known project, and so does the default. */
    predicate Consistent()
      reads this
    {
      && defaultSlug != "" && defaultSlug in projects
      && forall h :: h in hostMapping ==> hostMapping[h] in projects
    }

    /** The middleware: header, then forwarded or direct host, then the default. `strip` cuts
        a port off a host. A consistent resolver rejects a request exactly when its header
        names a project that does not exist. */
    method Resolve(header: string, forwardedHost: string, requestHost: string, strip: string -> string)
      returns (r: Outcome)
      ensures Consistent() ==> (!r.Resolved? <==> header != "" && header !in projects)
      ensures header != "" && header in projects ==> r == Resolved(header)
      ensures Consistent() && header == "" ==>
                var host := strip(if forwardedHost == "" then requestHost else forwardedHost);
                r == Resolved(if host in hostMapping && hostMapping[host] != "" then hostMapping[host] else defaultSlug)
    {
      var slug := header;
      if slug == "" {
        var originalHost := forwardedHost;
        if originalHost == "" {
          originalHost := requestHost;
        }
        var host := strip(originalHost);
        if host in hostMapping {
          slug := hostMapping[host];
        }
      }
      if slug == "" {
        slug := defaultSlug;
      }
      if slug == "" {
        return NoProject;
      }
      if slug !in projects {
        return UnknownProject(slug);
      }
      return Resolved(slug);
    }
  }

  /** The defaulting of Load, before validation. */
  function WithDefaults(p: Projects): Projects {
    p.(headerName := if p.headerName == "" then DEFAULT_HEADER_NAME else p.headerName,
    defaultSlug := if p.defaultSlug == "" then DEFAULT_SLUG else p.defaultSlug)
  }

  /** Start-up: defaults, validation, mapping, resolver. A configuration that starts gives a
      consistent resolver that knows exactly the defined projects. */
  method Start(raw: Projects, crons: set<string>, files: set<string>, order: seq<string>, mapOrder: seq<string>,
               listOrder: seq<string>)
    returns (resolver: ProjectResolver?)
    requires Visits(order, raw.definitions.Keys) && Visits(mapOrder, raw.definitions.Keys)
    requires Visits(listOrder, raw.definitions.Keys)
    ensures var slug := if raw.defaultSlug == "" then "default" else raw.defaultSlug;
            resolver != null <==>
              && slug in raw.definitions
              && (forall a, b :: a in raw.definitions && b in raw.definitions && a != b
                                 && raw.definitions[a].hostMapping != "" ==>
                    raw.definitions[a].hostMapping != raw.definitions[b].hostMapping)
              && (forall s :: s in raw.definitions ==>
                    var d := raw.definitions[s];
                    && (d.recipients != [] && d.schedule != "" ==> d.schedule in crons)
                    && (d.templatePath != "" ==> d.templatePath in files))
    ensures resolver != null ==>
              && resolver.Consistent()
              && resolver.projects == raw.definitions
              && resolver.headerName == (if raw.headerName == "" then "X-Project-ID" else raw.headerName)
              && resolver.defaultSlug == (if raw.defaultSlug == "" then "default" else raw.defaultSlug)
              && (forall h :: h in resolver.hostMapping ==>
                    h != "" && resolver.hostMapping[h] in raw.definitions
                    && raw.definitions[resolver.hostMapping[h]].hostMapping == h)
              && (forall s :: s in raw.definitions && raw.definitions[s].hostMapping != "" ==>
                    var h := raw.definitions[s].hostMapping;
                    h in resolver.hostMapping && resolver.hostMapping[h] == s)
  {
    var p := WithDefaults(raw);
    var ok := Validate(p, crons, files, order);
    if !ok {
      return null;
    }
    var hosts := BuildHostMapping(p, mapOrder);
    HostsOf(p, mapOrder);
    SameForEveryOrder(p, order, mapOrder);
    var defs := seq(|listOrder|, i requires 0 <= i < |listOrder| => p.definitions[listOrder[i]]);
    resolver := new ProjectResolver(p.headerName, p.defaultSlug, hosts, listOrder, defs);
    assert resolver.projects == raw.definitions;
  }
}
