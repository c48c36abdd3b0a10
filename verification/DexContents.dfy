// What a Ready ClusterDex has in the cluster, field by field and in terms of its
// specification alone; what it needs to become Ready; and what it leaves when it
// is disabled or deleted.
module DexContents {
  import opened Kube
  import opened Names
  import opened Policy
  import opened Dex
  import opened DexTruth
  import opened DexPasses
  import opened DexReconciler

  // ---------- What a specification asks for ----------

  /** Enabled unless it says otherwise. */
  predicate Off(spec: Spec) {
    spec.enabled == Some(false)
  }

  /** The ArgoCD namespace is the one given, or else "argocd". */
  predicate ArgoIn(spec: Spec, ns: string) {
    if spec.argocd.Some? && spec.argocd.value.namespace != "" then ns == spec.argocd.value.namespace else ns == "argocd"
  }

  /** The Application's name is "dex-" and the cluster id, shortened if it is too long. */
  ghost predicate DexNamed(hash: string -> string, spec: Spec, name: string)
    requires HexHash(hash)
  {
    var full := "dex-" + spec.clusterID;
    if |full| <= 63 then name == full else Shortened(hash, full, name)
  }

  /** The issuer is the one given, or else the Application's service. */
  predicate IssuedBy(spec: Spec, name: string, issuer: string) {
    if spec.dex.Some? && spec.dex.value.issuerURL != "" then issuer == spec.dex.value.issuerURL
    else issuer == "http://" + name + ".dex.svc.cluster.local:5556/dex"
  }

  lemma NameIsMeant(hash: string -> string, spec: Spec)
    requires HexHash(hash)
    ensures DexNamed(hash, spec, DexName(hash, spec.clusterID))
    ensures IssuedBy(spec, DexName(hash, spec.clusterID), IssuerURL(hash, spec))
  {
    var parts := ["dex", spec.clusterID];
    assert parts[1..] == [spec.clusterID];
    assert Join(parts, '-') == "dex" + ['-'] + Join(parts[1..], '-');
    assert "dex" + ['-'] + spec.clusterID == "dex-" + spec.clusterID;
    TenantChildNameFits(hash, parts);
    var name := DexName(hash, spec.clusterID);
    assert SCHEME + name + "." + DOMAIN == "http://" + name + ("." + DOMAIN);
    assert "." + DOMAIN == ".dex.svc.cluster.local:5556/dex";
  }

  // ---------- The children ----------

  /** A child of this name is there and carries the tenant's label. */
  predicate IsThere(st: Store, kind: Kind, ns: string, name: string, tenant: string) {
    var id := ID(kind, Key(ns, name));
    && id in st.children && "platform.inari.io/tenant" in st.children[id].labels
    && st.children[id].labels["platform.inari.io/tenant"] == tenant
  }

  /** The image reference is split into its parts, or left out if none is given. */
  predicate ImageIs(given: string, image: Option<ImageRef>) {
    if given == "" then image.None?
    else
      && image.Some? && image.value.Image? && image.value.repository + ":" + image.value.tag == given
      && '@' !in given && ':' !in image.value.tag && '/' !in image.value.tag
  }

  /** The Application: project, chart version and full name with their defaults,
      the configuration Secret, the image and the route. */
  predicate ApplicationSays(content: Content, dex: DexPart, argo: ArgoPart, name: string) {
    && content.AppContent?
    && content.project == (if argo.project != "" then argo.project else "default")
    && content.chartVersion == (if dex.chartVersion != "" then dex.chartVersion else "0.25.2")
    && content.fullname == name
    && dex.config.Some? && content.configSecret == dex.config.value.name
    && ImageIs(dex.image, content.image) && content.route == dex.route
  }

  /** argocd-cm: the issuer, and a reference to a key of the client's Secret. */
  predicate OidcSays(content: Content, argo: ArgoPart, issuer: string) {
    && content.OidcContent? && content.issuer == issuer && argo.oidcSecret.Some?
    && var ref := argo.oidcSecret.value;
       content.clientSecret == "$" + ref.name + ":" + (if ref.key != "" then ref.key else "client-secret")
  }

  /** argocd-rbac-cm: administrators, then readers, then the extra lines. Read
      back, the first lines give exactly the two groups. */
  ghost predicate PolicySays(content: Content, argo: ArgoPart) {
    && content.PolicyContent?
    && var n, lines := |argo.admins| + |argo.viewers|, Split(content.csv, '\n');
       && |lines| >= n
       && GroupsOf(lines[..n], ", role:admin") == argo.admins && GroupsOf(lines[..n], ", role:readonly") == argo.viewers
       && exists trimmed :: PolicyLinesAre(lines, argo, trimmed)
  }

  predicate PolicyLinesAre(lines: seq<string>, argo: ArgoPart, trimmed: seq<string>) {
    && |trimmed| == |argo.extra| && (forall i | 0 <= i < |trimmed| :: TrimmedTo(argo.extra[i], trimmed[i]))
    && LinesAre(lines, argo.admins, argo.viewers, AllLines(trimmed) + [""])
  }

  /** All three children are there and say what the specification asks for. */
  ghost predicate ChildrenSay(st: Store, spec: Spec, ns: string, name: string, issuer: string) {
    && spec.dex.Some? && spec.argocd.Some?
    && IsThere(st, Application, ns, name, spec.tenantID)
    && ApplicationSays(st.children[ID(Application, Key(ns, name))].content, spec.dex.value, spec.argocd.value, name)
    && IsThere(st, ConfigMap, ns, "argocd-cm", spec.tenantID)
    && OidcSays(st.children[ID(ConfigMap, Key(ns, "argocd-cm"))].content, spec.argocd.value, issuer)
    && IsThere(st, ConfigMap, ns, "argocd-rbac-cm", spec.tenantID)
    && PolicySays(st.children[ID(ConfigMap, Key(ns, "argocd-rbac-cm"))].content, spec.argocd.value)
  }

  predicate NoChildren(st: Store, ns: string, name: string) {
    && ID(Application, Key(ns, name)) !in st.children
    && ID(ConfigMap, Key(ns, "argocd-cm")) !in st.children && ID(ConfigMap, Key(ns, "argocd-rbac-cm")) !in st.children
  }

  /** The status gives the client id, the Application if there is one, and the issuer. */
  predicate StatusSays(cr: CR, name: string, issuer: string) {
    && cr.status.clientID == "cluster-" + cr.spec.clusterID + "-dex"
    && cr.status.application == (if Off(cr.spec) then "" else name)
    && cr.status.issuer == issuer && cr.status.mark == Ready(cr.generation)
  }

  lemma ApplicationIsMeant(hash: string -> string, spec: Spec)
    requires Renderable(spec)
    ensures ApplicationSays(ContentOf(hash, spec, 0), DexOf(spec), ArgoOf(spec), DexName(hash, spec.clusterID))
  {
    SplitImageRefSucceeds(DexOf(spec).image);
  }

  lemma PolicyIsMeant(hash: string -> string, spec: Spec)
    requires Renderable(spec)
    ensures PolicySays(ContentOf(hash, spec, 2), ArgoOf(spec))
  {
    var argo := ArgoOf(spec);
    var trimmed := Trimmed(argo.extra);
    PolicyStartsWithGroups(argo.admins, argo.viewers, argo.extra);
    PolicyLines(argo.admins, argo.viewers, argo.extra, trimmed);
    assert PolicyLinesAre(Split(ContentOf(hash, spec, 2).csv, '\n'), argo, trimmed);
  }

  lemma TruthIsMeant(hash: string -> string, st: Store, spec: Spec, ns: string)
    requires HexHash(hash) && Truth(hash, st, spec) && ArgoIn(spec, ns)
    ensures var name, issuer := DexName(hash, spec.clusterID), IssuerURL(hash, spec);
      && DexNamed(hash, spec, name) && IssuedBy(spec, name, issuer)
      && (if Off(spec) then NoChildren(st, ns, name) else ChildrenSay(st, spec, ns, name, issuer))
  {
    NameIsMeant(hash, spec);
    assert ArgoNamespace(spec) == ns;
    assert Right(hash, st.children, spec, !IsEnabled(spec), 0) && Right(hash, st.children, spec, !IsEnabled(spec), 1)
        && Right(hash, st.children, spec, !IsEnabled(spec), 2);
    if !Off(spec) {
      ApplicationIsMeant(hash, spec);
      PolicyIsMeant(hash, spec);
    }
  }

  /** What Ready is to mean: the resource is live, its status gives the right
      names, and the three children say exactly what the present specification
      asks for, or are gone if it is switched off. */
  ghost predicate MeansIt(hash: string -> string, st: Store, ns: string)
    requires HexHash(hash) && st.cr.Some?
  {
    var cr := st.cr.value;
    var name, issuer := TenantChildName(hash, ["dex", cr.spec.clusterID]), cr.status.issuer;
    && !cr.deleting && cr.status.observed == cr.generation
    && DexNamed(hash, cr.spec, name) && IssuedBy(cr.spec, name, issuer) && StatusSays(cr, name, issuer)
    && (if Off(cr.spec) then NoChildren(st, ns, name) else ChildrenSay(st, cr.spec, ns, name, issuer))
  }

  /** In every reachable state, whatever edits, failures and crashes came before,
      Ready=True at the current generation means it. */
  lemma {:induction false} ReadyMeans(hash: string -> string, rules: Rules, home: Spec, s: State, ns: string)
    requires HexHash(hash) && Reachable(hash, rules, home, s)
    requires s.store.cr.Some? && s.store.cr.value.status.mark == Ready(s.store.cr.value.generation)
    requires ArgoIn(s.store.cr.value.spec, ns)
    ensures MeansIt(hash, s.store, ns)
  {
    ReadyTellsTheTruth(hash, rules, home, s);
    TruthIsMeant(hash, s.store, s.store.cr.value.spec, ns);
  }

  // ---------- What it takes ----------

  /** A reference without a namespace means the resource's own. */
  predicate Present(st: Store, ref: SecretRef, own: string, keys: set<string>) {
    var key := Key(if ref.namespace != "" then ref.namespace else own, ref.name);
    key in st.secrets && keys <= st.secrets[key]
  }

  /** The client's Secret and the Dex configuration are there with their keys,
      and the ArgoCD client secret is referred to. */
  predicate Prepared(st: Store, cr: CR) {
    && Present(st, cr.spec.clientSecret, cr.namespace, {"client-id", "client-secret"})
    && cr.spec.dex.Some? && cr.spec.dex.value.config.Some?
    && Present(st, cr.spec.dex.value.config.value, cr.namespace, {"config.yaml"})
    && cr.spec.argocd.Some? && cr.spec.argocd.value.oidcSecret.Some?
  }

  predicate OneLine(groups: seq<string>) {
    forall g | g in groups :: '\r' !in g && '\n' !in g
  }

  /** No image, or one with a tag and without a digest; and every group on one line. */
  ghost predicate Sound(dex: DexPart, argo: ArgoPart) {
    && OneLine(argo.admins) && OneLine(argo.viewers)
    && (dex.image == "" ||
        ('@' !in dex.image && exists i | 0 <= i < |dex.image| :: dex.image[i] == ':' && forall j | i < j < |dex.image| :: dex.image[j] != '/'))
  }

  ghost predicate Provable(st: Store, cr: CR) {
    Prepared(st, cr) && Sound(cr.spec.dex.value, cr.spec.argocd.value)
  }

  lemma SoundIsMeant(dex: DexPart, argo: ArgoPart)
    ensures Sound(dex, argo) <==>
            (dex.image == "" || SplitImageRef(dex.image).Image?) && AllSingle(argo.admins) && AllSingle(argo.viewers)
  {
    SplitImageRefSucceeds(dex.image);
    OneLineIsMeant(argo.admins);
    OneLineIsMeant(argo.viewers);
  }

  lemma OneLineIsMeant(groups: seq<string>)
    ensures OneLine(groups) <==> AllSingle(groups)
  {
    forall g | g in groups && AllSingle(groups) ensures '\r' !in g && '\n' !in g { assert SingleLine(g); }
  }

  lemma PresentIsMeant(st: Store, cr: CR)
    ensures Present(st, cr.spec.clientSecret, cr.namespace, {"client-id", "client-secret"}) <==> HasKeys(st, ClientSecretKey(cr), CLIENTKEYS)
    ensures cr.spec.dex.Some? && cr.spec.dex.value.config.Some? ==>
      (Present(st, cr.spec.dex.value.config.value, cr.namespace, {"config.yaml"}) <==> HasKeys(st, ConfigKey(cr), CONFIGKEYS))
  {
  }

  lemma GateIsMeant(st: Store, cr: CR)
    ensures Gate(st, cr) <==> Provable(st, cr)
    ensures GateResult(st, cr) == if !Prepared(st, cr) then RequeueAfter(30) else if !Provable(st, cr) then Errored else Finished
  {
    PresentIsMeant(st, cr);
    if cr.spec.dex.Some? && cr.spec.argocd.Some? { SoundIsMeant(cr.spec.dex.value, cr.spec.argocd.value); }
  }

  /** What a reconcile of a live, enabled resource returns: it waits half a minute
      for what is missing, and fails if what is there cannot be rendered. */
  lemma DexWaits(st: Store)
    requires st.cr.Some? && !st.cr.value.deleting && !Off(st.cr.value.spec) && "platform.inari.io/finalizer" in st.cr.value.finalizers
    ensures var cr := st.cr.value;
      PassResult(st) == if !Prepared(st, cr) then RequeueAfter(30) else if !Provable(st, cr) then Errored else Finished
  {
    GateIsMeant(st, st.cr.value);
  }

  /** A pass over a live resource keeps its specification and every object of another name. */
  ghost predicate Spares(hash: string -> string, st: Store, st': Store) {
    && Live(st) && Live(st') && st'.cr.value.spec == st.cr.value.spec
    && st'.children - Triple(hash, st.cr.value.spec) == st.children - Triple(hash, st.cr.value.spec)
  }

  lemma {:induction false} PassesTouchOnlyThree(hash: string -> string, st: Store, n: nat)
    requires Live(st)
    ensures Spares(hash, st, Repeated(hash, st, n))
  {
    if n > 0 {
      PassesTouchOnlyThree(hash, st, n - 1);
      PassTouchesOnlyThree(hash, Repeated(hash, st, n - 1));
    }
  }

  lemma PassTouchesOnlyThree(hash: string -> string, st: Store)
    requires Live(st)
    ensures Spares(hash, st, DexPass(hash, st))
  {
    var cr := st.cr.value;
    if FINALIZER in cr.finalizers {
      if IsEnabled(cr.spec) {
        WrittenAllMeans(hash, st, cr.spec);
        ProvidedSpares(hash, st, WrittenAll(hash, st, cr.spec));
      } else {
        SweptSpares(hash, st);
      }
    }
  }

  lemma SweptSpares(hash: string -> string, st: Store)
    requires Live(st)
    ensures Spares(hash, st, Recorded(hash, Swept(hash, st, st.cr.value.spec)))
  {
  }

  lemma ProvidedSpares(hash: string -> string, st: Store, written: Store)
    requires Live(st) && written == WrittenAll(hash, st, st.cr.value.spec) && written.cr == st.cr
    requires written.children - Triple(hash, st.cr.value.spec) == st.children - Triple(hash, st.cr.value.spec)
    ensures Spares(hash, st, Provided(hash, st))
  {
  }

  /** Nothing but the three children differs. */
  predicate OnlyThree(st: Store, st': Store, ns: string, name: string) {
    var three := {ID(Application, Key(ns, name)), ID(ConfigMap, Key(ns, "argocd-cm")), ID(ConfigMap, Key(ns, "argocd-rbac-cm"))};
    st'.children - three == st.children - three && st'.secrets == st.secrets
  }

  lemma ThreeAreMeant(hash: string -> string, spec: Spec, ns: string)
    requires ArgoIn(spec, ns)
    ensures Triple(hash, spec) == {ID(Application, Key(ns, DexName(hash, spec.clusterID))), ID(ConfigMap, Key(ns, "argocd-cm")),
                                   ID(ConfigMap, Key(ns, "argocd-rbac-cm"))}
  {
  }

  /** Two undisturbed passes or more provide a live resource's children exactly
      if it is switched off, or prepared and sound; otherwise the failure is
      reported. Nothing but the three children is touched. */
  lemma {:induction false} DexIsProvided(hash: string -> string, st: Store, ns: string, n: nat) returns (name: string, issuer: string)
    requires HexHash(hash) && st.cr.Some? && !st.cr.value.deleting && ArgoIn(st.cr.value.spec, ns) && n >= 2
    ensures var cr, end := st.cr.value, Repeated(hash, st, n);
      && DexNamed(hash, cr.spec, name) && IssuedBy(cr.spec, name, issuer) && OnlyThree(st, end, ns, name)
      && end.cr.Some? && end.cr.value.spec == cr.spec && "platform.inari.io/finalizer" in end.cr.value.finalizers
      && (if Off(cr.spec) then StatusSays(end.cr.value, name, issuer) && NoChildren(end, ns, name)
          else if Provable(st, cr) then StatusSays(end.cr.value, name, issuer) && ChildrenSay(end, cr.spec, ns, name, issuer)
          else end.cr.value.status.mark == Failed(end.cr.value.generation))
  {
    var cr := st.cr.value;
    name, issuer := DexName(hash, cr.spec.clusterID), IssuerURL(hash, cr.spec);
    NameIsMeant(hash, cr.spec);
    GateIsMeant(st, cr);
    RepeatedSettles(hash, st, n);
    PassesTouchOnlyThree(hash, st, n);
    ThreeAreMeant(hash, cr.spec, ns);
    if Settled(hash, Repeated(hash, st, n)) { SettledIsMeant(hash, Repeated(hash, st, n), ns); }
  }

  lemma SettledIsMeant(hash: string -> string, st: Store, ns: string)
    requires HexHash(hash) && Settled(hash, st) && ArgoIn(st.cr.value.spec, ns)
    ensures var cr := st.cr.value;
      var name, issuer := DexName(hash, cr.spec.clusterID), IssuerURL(hash, cr.spec);
      && StatusSays(cr, name, issuer)
      && if Off(cr.spec) then NoChildren(st, ns, name) else ChildrenSay(st, cr.spec, ns, name, issuer)
  {
    var cr := st.cr.value;
    GateIsMeant(st, cr);
    TruthIsMeant(hash, st, cr.spec, ns);
    StatusIsMeant(hash, cr);
  }

  lemma StatusIsMeant(hash: string -> string, cr: CR)
    requires Unchanged(hash, cr)
    ensures cr.status.clientID == "cluster-" + cr.spec.clusterID + "-dex"
    ensures cr.status.application == (if Off(cr.spec) then "" else DexName(hash, cr.spec.clusterID))
    ensures cr.status.issuer == IssuerURL(hash, cr.spec) && cr.status.mark == Ready(cr.generation)
  {
  }

  /** A pass over a deleting resource removes the three children and the
      finalizer, and nothing else. */
  lemma DexIsRemoved(hash: string -> string, st: Store, ns: string) returns (name: string)
    requires HexHash(hash) && st.cr.Some? && st.cr.value.deleting && ArgoIn(st.cr.value.spec, ns)
    requires "platform.inari.io/finalizer" in st.cr.value.finalizers
    ensures var cr, st' := st.cr.value, DexPass(hash, st);
      && DexNamed(hash, cr.spec, name) && NoChildren(st', ns, name) && OnlyThree(st, st', ns, name)
      && PassResult(st) == Finished
      && (st'.cr.Some? <==> cr.finalizers != {"platform.inari.io/finalizer"})
      && (st'.cr.Some? ==> st'.cr.value.finalizers == cr.finalizers - {"platform.inari.io/finalizer"})
  {
    var cr := st.cr.value;
    name := DexName(hash, cr.spec.clusterID);
    NameIsMeant(hash, cr.spec);
    ThreeAreMeant(hash, cr.spec, ns);
    assert cr.finalizers - {FINALIZER} == {} <==> cr.finalizers == {FINALIZER};
  }

  // ---------- In the tenant's name ----------

  /** A worker comes to touch the children only from an answered call that takes
      on the specified service account. */
  lemma ChildrenAreTouchedAsTenant(hash: string -> string, s: State, fault: Fault)
    requires var pc' := StepWorker(hash, s, fault).pc; (pc'.Read? || pc'.Delete?) && pc'.i == 0
    ensures var pc' := StepWorker(hash, s, fault).pc;
      && Holds(s.pc) && s.pc.cr == pc'.cr && CallOf(hash, s.pc) == Impersonate(pc'.cr.spec.serviceAccount)
      && (pc'.cr.spec.serviceAccount == "" || fault.Fine?)
  {
  }

  /** If a call about a child fails while the children are written, the next call
      records the failure for the generation that was read. */
  lemma DexFailuresAreReported(hash: string -> string, s: State, fault: Fault)
    requires (s.pc.Read? || s.pc.Create? || s.pc.Update?) && !fault.Fine?
    ensures var cr, pc' := s.pc.cr, StepWorker(hash, s, fault).pc;
      && !pc'.Idle?
      && CallOf(hash, pc') == StatusCR(cr.(status := cr.status.(mark := Failed(cr.generation))))
  {
  }

  /** A cleanup stops at the first call that fails; the resource stays as it is. */
  lemma CleanupStopsAtFailure(hash: string -> string, s: State, fault: Fault)
    requires s.pc.Delete? && !fault.Fine?
    ensures var s' := StepWorker(hash, s, fault); s'.pc.Idle? && s'.store.cr == s.store.cr
  {
  }
}
