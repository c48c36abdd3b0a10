// Names derived from user input: shortened child names, DNS zone membership
// and image references, each against a definition that does not mention how
// it is computed.
module Names {
  import opened Kube

  // ---------- Strings ----------

  function Join(parts: seq<string>, sep: char): string {
    if parts == [] then ""
    else if |parts| == 1 then parts[0]
    else parts[0] + [sep] + Join(parts[1..], sep)
  }

  /** The pieces between separators; always at least one. */
  function Split(s: string, sep: char): (r: seq<string>)
    ensures |r| >= 1
  {
    if s == "" then [""]
    else
      var rest := Split(s[1..], sep);
      if s[0] == sep then [""] + rest else [[s[0]] + rest[0]] + rest[1..]
  }

  function LastIndex(s: string, c: char): (r: int)
    ensures -1 <= r < |s|
  {
    if s == "" then -1 else if s[|s| - 1] == c then |s| - 1 else LastIndex(s[..|s| - 1], c)
  }

  function TrimRight(s: string, cut: set<char>): string {
    if s != "" && s[|s| - 1] in cut then TrimRight(s[..|s| - 1], cut) else s
  }

  predicate HasSuffix(s: string, suffix: string) {
    |suffix| <= |s| && s[|s| - |suffix|..] == suffix
  }

  lemma {:induction false} LastIndexIsLast(s: string, c: char)
    ensures LastIndex(s, c) >= 0 ==> s[LastIndex(s, c)] == c
    ensures forall i | LastIndex(s, c) < i < |s| :: s[i] != c
  {
    if s != "" && s[|s| - 1] != c {
      LastIndexIsLast(s[..|s| - 1], c);
    }
  }

  lemma {:induction false} TrimRightTrims(s: string, cut: set<char>)
    ensures var t := TrimRight(s, cut);
      && |t| <= |s| && t == s[..|t|]
      && (t != "" ==> t[|t| - 1] !in cut)
      && (forall i | |t| <= i < |s| :: s[i] in cut)
  {
    if s != "" && s[|s| - 1] in cut {
      TrimRightTrims(s[..|s| - 1], cut);
    }
  }

  // ---------- splitImageRef ----------

  datatype ImageRef = BadImage | Image(repository: string, tag: string)

  function SplitImageRef(image: string): ImageRef {
    if '@' in image then BadImage
    else
      var idx := LastIndex(image, ':');
      if idx < 0 || idx < LastIndex(image, '/') then BadImage
      else Image(image[..idx], image[idx + 1..])
  }

  /** Splitting succeeds exactly when there is no digest and some colon follows
      every slash, and then the parts rebuild the reference. */
  lemma SplitImageRefSucceeds(image: string)
    ensures SplitImageRef(image).Image? <==>
            '@' !in image && exists i | 0 <= i < |image| :: image[i] == ':' && forall j | i < j < |image| :: image[j] != '/'
    ensures var ref := SplitImageRef(image);
      ref.Image? ==> ref.repository + ":" + ref.tag == image && ':' !in ref.tag && '/' !in ref.tag
  {
    LastIndexIsLast(image, ':');
    LastIndexIsLast(image, '/');
    var idx := LastIndex(image, ':');
    if SplitImageRef(image).Image? {
      assert image[idx] == ':' && forall j | idx < j < |image| :: image[j] != '/';
    }
  }

  /** Any repository without a digest and any plain tag survive joining and splitting. */
  lemma SplitImageRefRoundTrip(repository: string, tag: string)
    requires '@' !in repository && forall c | c in tag :: c !in {':', '/', '@'}
    ensures SplitImageRef(repository + ":" + tag) == Image(repository, tag)
  {
    var image := repository + ":" + tag;
    LastIndexIsLast(image, ':');
    LastIndexIsLast(image, '/');
    assert image[|repository|] == ':';
    assert forall i | |repository| < i < |image| :: image[i] == tag[i - |repository| - 1] && image[i] in tag;
    assert LastIndex(image, ':') == |repository|;
    assert image[..|repository|] == repository && image[|repository| + 1..] == tag;
  }

  // ---------- dnsNamesInZone ----------

  function TrimDot(s: string): string {
    if s != "" && s[|s| - 1] == '.' then s[..|s| - 1] else s
  }

  predicate NameInZone(name: string, zone: string) {
    var n, z := TrimDot(name), TrimDot(zone);
    n == z || HasSuffix(n, "." + z)
  }

  /** The dot-separated labels after removing one trailing dot. */
  function Labels(name: string): seq<string> {
    Split(TrimDot(name), '.')
  }

  predicate LabelSuffix(labels: seq<string>, suffix: seq<string>) {
    |suffix| <= |labels| && labels[|labels| - |suffix|..] == suffix
  }

  lemma {:induction false} SplitConcat(a: string, b: string, sep: char)
    ensures Split(a + [sep] + b, sep) == Split(a, sep) + Split(b, sep)
  {
    var s := a + [sep] + b;
    if a == "" {
      assert s[1..] == b;
    } else {
      assert s[1..] == a[1..] + [sep] + b;
      SplitConcat(a[1..], b, sep);
    }
  }

  lemma {:induction false} JoinSplit(s: string, sep: char)
    ensures Join(Split(s, sep), sep) == s
  {
    if s != "" {
      var rest := Split(s[1..], sep);
      JoinSplit(s[1..], sep);
      if s[0] == sep {
        assert ([""] + rest)[1..] == rest;
      } else if |rest| > 1 {
        assert ([[s[0]] + rest[0]] + rest[1..])[1..] == rest[1..];
      }
    }
  }

  lemma {:induction false} JoinConcat(a: seq<string>, b: seq<string>, sep: char)
    requires a != [] && b != []
    ensures Join(a + b, sep) == Join(a, sep) + [sep] + Join(b, sep)
  {
    if |a| == 1 {
      assert (a + b)[1..] == b;
    } else {
      assert (a + b)[1..] == a[1..] + b;
      JoinConcat(a[1..], b, sep);
    }
  }

  /** A name is in a zone exactly when the zone's labels end the name's labels. */
  lemma InZoneIffLabelSuffix(name: string, zone: string)
    ensures NameInZone(name, zone) <==> LabelSuffix(Labels(name), Labels(zone))
  {
    var n, z := TrimDot(name), TrimDot(zone);
    var ln, lz := Labels(name), Labels(zone);
    if NameInZone(name, zone) && n != z {
      var a := n[..|n| - |z| - 1];
      assert n == a + ['.'] + z;
      SplitConcat(a, z, '.');
    }
    if LabelSuffix(ln, lz) {
      JoinSplit(n, '.');
      JoinSplit(z, '.');
      var front := ln[..|ln| - |lz|];
      assert ln == front + lz;
      if front != [] {
        JoinConcat(front, lz, '.');
        assert n == Join(front, '.') + ("." + z);
      }
    }
  }

  /** The labels of z end those of n. */
  predicate EndsIn(n: string, z: string) {
    var labels, suffix := Split(n, '.'), Split(z, '.');
    |suffix| <= |labels| && labels[|labels| - |suffix|..] == suffix
  }

  predicate Undotted(s: string) {
    s == "" || s[|s| - 1] != '.'
  }

  /** Name and zone may each be written with a trailing dot or without one. */
  lemma TrailingDotIsIgnored(n: string, z: string)
    ensures NameInZone(n + ".", z + ".") <==> EndsIn(n, z)
    ensures Undotted(n) ==> (NameInZone(n, z + ".") <==> EndsIn(n, z))
    ensures Undotted(z) ==> (NameInZone(n + ".", z) <==> EndsIn(n, z))
    ensures Undotted(n) && Undotted(z) ==> (NameInZone(n, z) <==> EndsIn(n, z))
  {
    assert (n + ".")[..|n|] == n && (z + ".")[..|z|] == z;
    InZoneIffLabelSuffix(n + ".", z + ".");
    InZoneIffLabelSuffix(n, z + ".");
    InZoneIffLabelSuffix(n + ".", z);
    InZoneIffLabelSuffix(n, z);
  }

  lemma OneDotLess(s: string)
    ensures TrimDot(s + "..") == s + "."
  {
    assert (s + "..")[..|s| + 1] == s + ".";
  }

  lemma DottedEnd(n: string, z: string)
    requires Undotted(z)
    ensures HasSuffix(n + ".", "." + z) <==> z == ""
  {
    if HasSuffix(n + ".", "." + z) {
      var end := (n + ".")[|n + "."| - |"." + z|..];
      assert end[|z|] == '.' == ("." + z)[|z|];
    }
  }

  /** Only one dot is ignored: with two, a name is in no zone but the root, a
      zone holds no name with fewer, and two against two match again. */
  lemma SecondDotCounts(n: string, z: string)
    requires Undotted(n) && Undotted(z)
    ensures NameInZone(n + "..", z) <==> z == ""
    ensures !NameInZone(n, z + "..")
    ensures NameInZone(n + "..", z + "..") <==> EndsIn(n, z)
  {
    OneDotLess(n);
    OneDotLess(z);
    DottedEnd(n, z);
    DottedZone(n, z);
    TwoDots(n, z);
  }

  lemma DottedZone(n: string, z: string)
    requires Undotted(n)
    ensures n != z + "." && !HasSuffix(n, "." + (z + "."))
  {
    var suffix := "." + (z + ".");
    assert suffix[|suffix| - 1] == '.';
  }

  lemma TwoDots(n: string, z: string)
    ensures NameInZone(n + "..", z + "..") <==> EndsIn(n, z)
  {
    TrailingDotIsIgnored(n + ".", z + ".");
    assert (n + "..") == (n + ".") + "." && (z + "..") == (z + ".") + ".";
    DottedLabels(n);
    DottedLabels(z);
    SuffixWithOneMore(Split(n, '.'), Split(z, '.'));
  }

  lemma DottedLabels(s: string)
    ensures Split(s + ".", '.') == Split(s, '.') + [""]
  {
    SplitConcat(s, "", '.');
    assert s + "." == s + ['.'] + "";
  }

  lemma SuffixWithOneMore(labels: seq<string>, suffix: seq<string>)
    ensures LabelSuffix(labels + [""], suffix + [""]) <==> LabelSuffix(labels, suffix)
  {
    if |suffix| <= |labels| {
      var end := labels[|labels| - |suffix|..];
      assert (labels + [""])[|labels| - |suffix|..] == end + [""];
      assert end == (end + [""])[..|suffix|] && suffix == (suffix + [""])[..|suffix|];
    }
  }

  /** Membership is transitive, and zones that share a name are nested. */
  lemma ZonesNest(name: string, zone: string, outer: string)
    ensures NameInZone(name, zone) && NameInZone(zone, outer) ==> NameInZone(name, outer)
    ensures NameInZone(name, zone) && NameInZone(name, outer) ==> NameInZone(zone, outer) || NameInZone(outer, zone)
  {
    InZoneIffLabelSuffix(name, zone);
    InZoneIffLabelSuffix(zone, outer);
    InZoneIffLabelSuffix(outer, zone);
    InZoneIffLabelSuffix(name, outer);
    var n, z, o := Labels(name), Labels(zone), Labels(outer);
    if LabelSuffix(n, z) && |o| <= |z| {
      assert n[|n| - |o|..] == z[|z| - |o|..];
    }
    if LabelSuffix(n, z) && LabelSuffix(n, o) && |z| <= |o| {
      assert n[|n| - |z|..] == o[|o| - |z|..];
    }
  }

  // ---------- tenantChildName ----------

  const MAXNAME := 63

  /** A content hash in lower-case hexadecimal, at least eight digits long. */
  ghost predicate HexHash(hash: string -> string) {
    forall s :: |hash(s)| >= 8 && forall c | c in hash(s) :: '0' <= c <= '9' || 'a' <= c <= 'f'
  }

  function TenantChildName(hash: string -> string, parts: seq<string>): string {
    var s := Join(parts, '-');
    if |s| <= MAXNAME then s
    else
      var digest := hash(s);
      var suffix := if |digest| >= 8 then digest[..8] else digest;
      TrimRight(s[..MAXNAME - |suffix| - 1], {'-', '.'}) + "-" + suffix
  }

  predicate LowerAlnum(c: char) {
    'a' <= c <= 'z' || '0' <= c <= '9'
  }

  /** A letter or digit, a hyphen, or a dot between letters or digits. */
  predicate CharOK(s: string, i: int)
    requires 0 <= i < |s|
  {
    || LowerAlnum(s[i]) || s[i] == '-'
    || (s[i] == '.' && 0 < i < |s| - 1 && LowerAlnum(s[i - 1]) && LowerAlnum(s[i + 1]))
  }

  /** Section 2.1 of RFC 1123 without the length limits: letters, digits, dots
      and hyphens, starting and ending with a letter or digit, and no empty label. */
  predicate SubdomainChars(s: string) {
    && s != "" && LowerAlnum(s[0]) && LowerAlnum(s[|s| - 1])
    && forall i | 0 <= i < |s| :: CharOK(s, i)
  }

  predicate LabelChars(s: string) {
    SubdomainChars(s) && '.' !in s
  }

  /** Two valid names joined by a hyphen are one. */
  lemma HyphenKeepsSubdomain(a: string, b: string)
    requires SubdomainChars(a) && SubdomainChars(b)
    ensures SubdomainChars(a + "-" + b)
    ensures '.' !in a && '.' !in b ==> '.' !in a + "-" + b
  {
    var s := a + "-" + b;
    forall i | 0 <= i < |s| ensures CharOK(s, i) {
      if i < |a| {
        assert CharOK(a, i);
        assert i < |a| - 1 ==> s[i + 1] == a[i + 1];
      } else if i > |a| {
        assert CharOK(b, i - |a| - 1);
        assert i > |a| + 1 ==> s[i - 1] == b[i - |a| - 2];
        assert i < |s| - 1 ==> s[i + 1] == b[i - |a|];
      }
    }
  }

  lemma {:induction false} JoinKeepsSubdomain(parts: seq<string>)
    requires parts != [] && forall p | p in parts :: SubdomainChars(p)
    ensures SubdomainChars(Join(parts, '-'))
    ensures (forall p | p in parts :: '.' !in p) ==> '.' !in Join(parts, '-')
  {
    if |parts| > 1 {
      assert forall p | p in parts[1..] :: p in parts;
      JoinKeepsSubdomain(parts[1..]);
      HyphenKeepsSubdomain(parts[0], Join(parts[1..], '-'));
    }
  }

  /** A prefix of a valid name that ends in a letter or digit is one, or does
      not end in a letter or digit after all. */
  lemma PrefixKeepsSubdomain(s: string, n: nat)
    requires SubdomainChars(s) && 1 <= n <= |s| && LowerAlnum(s[n - 1])
    ensures SubdomainChars(s[..n])
  {
    var t := s[..n];
    forall i | 0 <= i < n ensures CharOK(t, i) { assert CharOK(s, i); }
  }

  lemma DigitsAreSubdomain(s: string)
    requires s != "" && forall c | c in s :: LowerAlnum(c)
    ensures SubdomainChars(s) && '.' !in s
  {
    forall i | 0 <= i < |s| ensures CharOK(s, i) { assert s[i] in s; }
  }

  /** What a long joined name is shortened to. */
  ghost predicate Shortened(hash: string -> string, joined: string, name: string)
    requires HexHash(hash)
  {
    exists n | 0 <= n <= 54 && n < |joined| :: CutAt(hash, joined, name, n)
  }

  ghost predicate CutAt(hash: string -> string, joined: string, name: string, n: nat)
    requires n < |joined| && HexHash(hash)
  {
    && name == joined[..n] + "-" + hash(joined)[..8]
    && (n > 0 ==> joined[n - 1] !in {'-', '.'})
    && forall i | n <= i < 54 && i < |joined| :: joined[i] in {'-', '.'}
  }

  lemma LongNameIsShortened(hash: string -> string, parts: seq<string>)
    requires HexHash(hash) && |Join(parts, '-')| > 63
    ensures Shortened(hash, Join(parts, '-'), TenantChildName(hash, parts))
  {
    var joined, name := Join(parts, '-'), TenantChildName(hash, parts);
    var cut := joined[..MAXNAME - 9];
    var kept := TrimRight(cut, {'-', '.'});
    TrimRightTrims(cut, {'-', '.'});
    assert kept == joined[..|kept|];
    assert forall i | |kept| <= i < |cut| :: joined[i] == cut[i];
    assert name == joined[..|kept|] + "-" + hash(joined)[..8];
    assert CutAt(hash, joined, name, |kept|);
  }

  /** The name never exceeds 63 characters, keeps short inputs as they are, and
      cuts long ones after a character that is neither a hyphen nor a dot. */
  lemma TenantChildNameFits(hash: string -> string, parts: seq<string>)
    requires HexHash(hash)
    ensures var joined, name := Join(parts, '-'), TenantChildName(hash, parts);
      |name| <= 63 && if |joined| <= 63 then name == joined else Shortened(hash, joined, name)
  {
    if |Join(parts, '-')| > MAXNAME {
      LongNameIsShortened(hash, parts);
    }
  }

  /** Valid parts give a valid name, and a single label if the parts are labels. */
  lemma TenantChildNameIsValid(hash: string -> string, parts: seq<string>)
    requires HexHash(hash) && parts != [] && forall p | p in parts :: SubdomainChars(p)
    ensures var name := TenantChildName(hash, parts);
      SubdomainChars(name) && ((forall p | p in parts :: '.' !in p) ==> '.' !in name)
  {
    var joined, name := Join(parts, '-'), TenantChildName(hash, parts);
    JoinKeepsSubdomain(parts);
    if |joined| > MAXNAME {
      LongNameIsShortened(hash, parts);
      var n :| 0 <= n <= MAXNAME - 9 && n < |joined| && CutAt(hash, joined, name, n);
      assert n > 0 && CharOK(joined, n - 1);
      PrefixKeepsSubdomain(joined, n);
      var suffix := hash(joined)[..8];
      assert forall c | c in suffix :: c in hash(joined);
      DigitsAreSubdomain(suffix);
      HyphenKeepsSubdomain(joined[..n], suffix);
    }
  }

  /** The host label of the default issuer, the Application name and the Helm
      fullnameOverride are one and the same name. */
  function DexName(hash: string -> string, clusterID: string): string {
    TenantChildName(hash, ["dex", clusterID])
  }

  const SCHEME := "http://"
  const DOMAIN := "dex.svc.cluster.local:5556/dex"

  function DefaultIssuer(hash: string -> string, clusterID: string): string {
    SCHEME + DexName(hash, clusterID) + "." + DOMAIN
  }

  /** For a valid cluster id the issuer's host starts with that name as one whole label. */
  lemma DefaultIssuerHost(hash: string -> string, clusterID: string)
    requires HexHash(hash) && LabelChars(clusterID)
    ensures var name := DexName(hash, clusterID);
      && LabelChars(name) && |name| <= 63
      && Split(DefaultIssuer(hash, clusterID)[|SCHEME|..], '.')[0] == name
  {
    var name := DexName(hash, clusterID);
    DigitsAreSubdomain("dex");
    TenantChildNameFits(hash, ["dex", clusterID]);
    TenantChildNameIsValid(hash, ["dex", clusterID]);
    HostStartsWith(name, DOMAIN);
    assert SCHEME + name + "." + DOMAIN == SCHEME + (name + "." + DOMAIN);
  }

  lemma HostStartsWith(name: string, rest: string)
    requires '.' !in name
    ensures Split(name + "." + rest, '.')[0] == name
  {
    SplitConcat(name, rest, '.');
    SplitPlain(name, '.');
  }

  lemma {:induction false} SplitPlain(s: string, sep: char)
    requires sep !in s
    ensures Split(s, sep) == [s]
  {
    if s != "" {
      SplitPlain(s[1..], sep);
      assert [s[0]] + s[1..] == s;
    }
  }
}
