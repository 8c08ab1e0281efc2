/** The two notions of "same model": splitName of internal/ollamafs/ollamafs.go, which says
    where a model's manifest is stored, and the registry's HasModel. */
module ModelNames {
  import opened Nodes

  /** strings.LastIndex for one character, among the first n: -1 if it does not occur. */
  function LastIndex(s: string, c: char, n: nat): (i: int)
    requires n <= |s|
    ensures -1 <= i < n
    ensures i >= 0 ==> s[i] == c
    ensures forall j :: i < j < n ==> s[j] != c
  {
    if n == 0 then -1 else if s[n - 1] == c then n - 1 else LastIndex(s, c, n - 1)
  }

  /** strings.Split on one character. */
  function Split(s: string, c: char): (parts: seq<string>)
    ensures parts != []
  {
    if s == [] then [[]] else
      var parts, last := Split(s[..|s| - 1], c), s[|s| - 1];
      if last == c then parts + [[]] else Extend(parts, [last])
  }

  /** Lengthens the last part. */
  function Extend(parts: seq<string>, x: string): (r: seq<string>)
    requires parts != []
    ensures |r| == |parts|
  {
    parts[..|parts| - 1] + [parts[|parts| - 1] + x]
  }

  function Join(parts: seq<string>, c: char): string
    requires parts != []
  {
    if |parts| == 1 then parts[0] else Join(parts[..|parts| - 1], c) + [c] + parts[|parts| - 1]
  }

  datatype StorePath = StorePath(host: string, namespace: string, name: string, tag: string)

  datatype Defaults = Defaults(host: string, namespace: string, tag: string)

  const OLLAMA := Defaults("registry.ollama.ai", "library", "latest")

  /** The name without its tag: what precedes the last colon. */
  function Base(model: string): string {
    var i := LastIndex(model, ':', |model|);
    if i >= 0 then model[..i] else model
  }

  function Tag(model: string, d: Defaults): string {
    var i := LastIndex(model, ':', |model|);
    if i >= 0 then model[i + 1..] else d.tag
  }

  function Parts(model: string): (parts: seq<string>)
    ensures parts != []
  {
    Split(Base(model), '/')
  }

  function FromBase(base: string, tag: string, d: Defaults): StorePath {
    var parts := Split(base, '/');
    if |parts| == 3 then StorePath(parts[0], parts[1], parts[2], tag)
    else if |parts| == 2 then StorePath(d.host, parts[0], parts[1], tag)
    else StorePath(d.host, d.namespace, base, tag)
  }

  function PathWith(model: string, d: Defaults): StorePath {
    FromBase(Base(model), Tag(model, d), d)
  }

  /** Where Ollama's store keeps the model's manifest. */
  function PathOf(model: string): StorePath {
    PathWith(model, OLLAMA)
  }

  method SplitName(model: string) returns (host: string, namespace: string, name: string, tag: string)
    ensures StorePath(host, namespace, name, tag) == PathOf(model)
  {
    hide LastIndex;
    hide Split;
    host, namespace, tag := OLLAMA.host, OLLAMA.namespace, OLLAMA.tag;
    name := model;
    var i := LastIndex(name, ':', |name|);
    if i >= 0 {
      tag := name[i + 1..];
      name := name[..i];
    }
    var parts := Split(name, '/');
    if |parts| == 3 {
      host, namespace, name := parts[0], parts[1], parts[2];
    } else if |parts| == 2 {
      namespace, name := parts[0], parts[1];
    }
  }

  lemma ExtendTwice(parts: seq<string>, x: string, y: string)
    requires parts != []
    ensures Extend(Extend(parts, x), y) == Extend(parts, x + y)
  {
    var n := |parts| - 1;
    assert Extend(parts, x)[..n] == parts[..n];
    assert (parts[n] + x) + y == parts[n] + (x + y);
  }

  /** A suffix without the separator lengthens the last part and changes nothing else. */
  lemma {:induction false} SplitSuffix(s: string, x: string, c: char)
    requires c !in x
    ensures Split(s + x, c) == Extend(Split(s, c), x)
  {
    if x == [] {
      assert s + x == s;
      var parts := Split(s, c);
      assert parts[|parts| - 1] + x == parts[|parts| - 1];
    } else {
      var init, last := x[..|x| - 1], x[|x| - 1];
      SplitSuffix(s, init, c);
      assert (s + x)[..|s + x| - 1] == s + init;
      assert last in x;
      ExtendTwice(Split(s, c), init, [last]);
      assert init + [last] == x;
    }
  }

  lemma {:induction false} JoinSplit(s: string, c: char)
    ensures Join(Split(s, c), c) == s
  {
    if s != [] {
      var parts, last := Split(s[..|s| - 1], c), s[|s| - 1];
      JoinSplit(s[..|s| - 1], c);
      if last == c {
        assert (parts + [[]])[..|parts|] == parts;
      } else if |parts| > 1 {
        assert Extend(parts, [last])[..|parts| - 1] == parts[..|parts| - 1];
      }
    }
  }

  /** Splitting at the last separator. */
  lemma SplitLast(s: string, p: string, c: char)
    requires c !in p
    ensures Split(s + [c] + p, c) == Split(s, c) + [p]
  {
    assert (s + [c])[..|s|] == s;
    SplitSuffix(s + [c], p, c);
    var parts := Split(s, c);
    assert (parts + [[]])[..|parts|] == parts && [] + p == p;
  }

  /** Parts without the separator survive joining and splitting. */
  lemma {:induction false} SplitJoin(parts: seq<string>, c: char)
    requires parts != [] && forall p :: p in parts ==> c !in p
    ensures Split(Join(parts, c), c) == parts
  {
    var n := |parts| - 1;
    assert parts[n] in parts;
    if n == 0 {
      SplitSuffix([], parts[0], c);
      assert [] + parts[0] == parts[0];
      assert Extend([[]], parts[0]) == [parts[0]];
    } else {
      SplitJoin(parts[..n], c);
      SplitLast(Join(parts[..n], c), parts[n], c);
      assert parts == parts[..n] + [parts[n]];
    }
  }

  lemma LastIndexIs(s: string, c: char, k: nat)
    requires k < |s| && s[k] == c && forall j :: k < j < |s| ==> s[j] != c
    ensures LastIndex(s, c, |s|) == k
  {
    hide LastIndex;
  }

  /** The last colon of base + ":" + tag is the tag's. */
  lemma LastColon(s: string, base: string, tag: string)
    requires s == base + ":" + tag && ':' !in tag
    ensures LastIndex(s, ':', |s|) == |base|
    ensures s[..|base|] == base && s[|base| + 1..] == tag
  {
    hide LastIndex;
    assert s[|base|] == ':';
    forall j | |base| < j < |s|
      ensures s[j] != ':'
    {
      assert s[j] == tag[j - |base| - 1];
    }
    LastIndexIs(s, ':', |base|);
  }

  lemma TaggedName(base: string, tag: string, d: Defaults)
    requires ':' !in tag
    ensures Base(base + ":" + tag) == base && Tag(base + ":" + tag, d) == tag
  {
    hide LastIndex;
    LastColon(base + ":" + tag, base, tag);
  }

  lemma UntaggedName(base: string, d: Defaults)
    requires ':' !in base
    ensures Base(base) == base && Tag(base, d) == d.tag
  {
  }

  /** A name is its base, with its tag behind a colon if it has one. */
  lemma NameOfParts(model: string, d: Defaults)
    ensures ':' in model ==> model == Base(model) + ":" + Tag(model, d) && ':' !in Tag(model, d)
    ensures ':' !in model ==> model == Base(model) && Tag(model, d) == d.tag
  {
    var i := LastIndex(model, ':', |model|);
    if i >= 0 {
      assert model == model[..i] + ":" + model[i + 1..];
    }
  }

  predicate Plain(s: string) {
    '/' !in s && ':' !in s
  }

  /** Composing a full reference and splitting it gives back exactly its parts. */
  lemma FullNameRoundTrip(host: string, namespace: string, name: string, tag: string)
    requires Plain(host) && Plain(namespace) && Plain(name) && Plain(tag)
    ensures PathOf(host + "/" + namespace + "/" + name + ":" + tag) == StorePath(host, namespace, name, tag)
  {
    var parts := [host, namespace, name];
    var base := host + "/" + namespace + "/" + name;
    assert Join(parts, '/') == base by {
      assert parts[..2] == [host, namespace] && [host, namespace][..1] == [host];
      assert Join([host, namespace], '/') == host + "/" + namespace;
    }
    SplitJoin(parts, '/');
    hide Split;
    hide Join;
    TaggedName(base, tag, OLLAMA);
  }

  lemma TwoParts(namespace: string, name: string)
    requires '/' !in namespace && '/' !in name
    ensures Split(namespace + "/" + name, '/') == [namespace, name]
  {
    var parts := [namespace, name];
    assert parts[..1] == [namespace];
    SplitJoin(parts, '/');
  }

  /** Leaving parts out gives the defaults. */
  lemma ShortNameDefaults(namespace: string, name: string, tag: string, d: Defaults)
    requires Plain(namespace) && Plain(name) && Plain(tag)
    ensures PathWith(name, d) == StorePath(d.host, d.namespace, name, d.tag)
    ensures PathWith(name + ":" + tag, d) == StorePath(d.host, d.namespace, name, tag)
    ensures PathWith(namespace + "/" + name, d) == StorePath(d.host, namespace, name, d.tag)
    ensures PathWith(namespace + "/" + name + ":" + tag, d) == StorePath(d.host, namespace, name, tag)
  {
    SplitJoin([name], '/');
    TwoParts(namespace, name);
    UntaggedName(name, d);
    TaggedName(name, tag, d);
    UntaggedName(namespace + "/" + name, d);
    TaggedName(namespace + "/" + name, tag, d);
  }

  /** Ollama's own defaults, and what a name with more than three parts becomes. */
  lemma OllamaDefaults(namespace: string, name: string, tag: string)
    requires Plain(namespace) && Plain(name) && Plain(tag)
    ensures PathOf(name) == StorePath("registry.ollama.ai", "library", name, "latest")
    ensures PathOf(name + ":" + tag) == StorePath("registry.ollama.ai", "library", name, tag)
    ensures PathOf(namespace + "/" + name) == StorePath("registry.ollama.ai", namespace, name, "latest")
    ensures PathOf(namespace + "/" + name + ":" + tag) == StorePath("registry.ollama.ai", namespace, name, tag)
  {
    ShortNameDefaults(namespace, name, tag, OLLAMA);
    hide PathWith;
  }

  lemma LongNameStaysWhole(parts: seq<string>, tag: string)
    requires |parts| > 3 && (forall p :: p in parts ==> '/' !in p) && ':' !in tag
    ensures PathOf(Join(parts, '/') + ":" + tag) == StorePath("registry.ollama.ai", "library", Join(parts, '/'), tag)
  {
    SplitJoin(parts, '/');
    TaggedName(Join(parts, '/'), tag, OLLAMA);
    hide Split;
    hide Join;
  }

  /** Lengthening the last part changes the path. */
  lemma LongerBaseDiffers(base: string, x: string, t: string, u: string, d: Defaults)
    requires '/' !in x && x != []
    ensures FromBase(base + x, t, d) != FromBase(base, u, d)
  {
    SplitSuffix(base, x, '/');
    var parts := Split(base, '/');
    var n := |parts| - 1;
    assert Extend(parts, x)[n] == parts[n] + x;
    assert |parts[n] + x| != |parts[n]| && |base + x| != |base|;
  }

  lemma SecondTagDiffers(a: string, d: Defaults)
    requires Plain(d.tag) && ':' in a
    ensures FromBase(a, d.tag, d) != FromBase(Base(a), Tag(a, d), d)
  {
    NameOfParts(a, d);
    var base, tag := Base(a), Tag(a, d);
    hide Base;
    hide Tag;
    if tag == d.tag {
      LongerBaseDiffers(base, ":" + tag, tag, tag, d);
      assert base + ":" + tag == base + (":" + tag);
    }
  }

  /** Adding the default tag leaves the path alone exactly if the name had no tag. */
  lemma DefaultTagAgrees(a: string, d: Defaults)
    requires Plain(d.tag)
    ensures PathWith(a + ":" + d.tag, d) == PathWith(a, d) <==> ':' !in a
  {
    TaggedName(a, d.tag, d);
    if ':' in a {
      SecondTagDiffers(a, d);
    } else {
      UntaggedName(a, d);
    }
    hide Base;
    hide Tag;
    hide FromBase;
  }

  /** SameModel for any default tag. */
  predicate SameUpTo(a: string, b: string, tag: string) {
    a == b || a == b + ":" + tag || a + ":" + tag == b
  }

  lemma SameModelIsSameUpToLatest(a: string, b: string)
    ensures SameModel(a, b) <==> SameUpTo(a, b, OLLAMA.tag)
    ensures Plain(OLLAMA.tag)
  {
    assert ":latest" == ":" + "latest";
    assert a + ":latest" == a + ":" + "latest" && b + ":latest" == b + ":" + "latest";
  }

  function Shorter(a: string, b: string): string {
    if |a| < |b| then a else b
  }

  lemma MatchAgrees(a: string, b: string, d: Defaults)
    requires SameUpTo(a, b, d.tag) && Plain(d.tag)
    ensures PathWith(a, d) == PathWith(b, d) <==> a == b || ':' !in Shorter(a, b)
  {
    DefaultTagAgrees(a, d);
    DefaultTagAgrees(b, d);
  }

  /** When the registry takes two names for the same model, they are stored in the same place
      exactly if they are equal or the shorter one has no tag. */
  lemma MatchAgreesExactly(a: string, b: string)
    requires SameModel(a, b)
    ensures PathOf(a) == PathOf(b) <==> a == b || ':' !in Shorter(a, b)
  {
    SameModelIsSameUpToLatest(a, b);
    MatchAgrees(a, b, OLLAMA);
  }

  predicate AtMostOneColon(s: string) {
    forall i, j :: 0 <= i < j < |s| ==> !(s[i] == ':' && s[j] == ':')
  }

  lemma OneColonIsTheTags(a: string, tag: string)
    requires AtMostOneColon(a + ":" + tag)
    ensures ':' !in a
  {
    var s := a + ":" + tag;
    assert s[|a|] == ':';
    assert forall i :: 0 <= i < |a| ==> s[i] == a[i];
  }

  /** So a driver opens the manifest of the model it advertised, as long as neither name has
      a second colon. */
  lemma DriverOpensAdvertisedModel(n: NodeState, m: Model, model: string)
    requires m in n.models && SameModel(m.name, model)
    requires AtMostOneColon(m.name) && AtMostOneColon(model)
    ensures n.HasModel(model) && PathOf(m.name) == PathOf(model)
  {
    MatchAgreesExactly(m.name, model);
    SameModelIsSameUpToLatest(m.name, model);
    var tag := OLLAMA.tag;
    if m.name == model + ":" + tag {
      OneColonIsTheTags(model, tag);
    } else if m.name + ":" + tag == model {
      OneColonIsTheTags(m.name, tag);
    }
  }

  /** With a second colon the two notions part: the registry takes the names for the same
      model, and the driver looks elsewhere. */
  lemma SecondColonDisagrees(a: string)
    requires ':' in a
    ensures SameModel(a, a + ":latest") && PathOf(a) != PathOf(a + ":latest")
  {
    MatchAgreesExactly(a, a + ":latest");
  }

  lemma SameBase(a: string, b: string, d: Defaults)
    requires PathWith(a, d) == PathWith(b, d) && |Parts(a)| == |Parts(b)|
    ensures Base(a) == Base(b) && Tag(a, d) == Tag(b, d)
  {
    JoinSplit(Base(a), '/');
    JoinSplit(Base(b), '/');
    var p, q := Parts(a), Parts(b);
    if |p| == 3 {
      assert p == [p[0], p[1], p[2]] && q == [q[0], q[1], q[2]];
    } else if |p| == 2 {
      assert p == [p[0], p[1]] && q == [q[0], q[1]];
    }
  }

  lemma SamePathIsMatch(a: string, b: string, d: Defaults)
    requires PathWith(a, d) == PathWith(b, d) && |Parts(a)| == |Parts(b)|
    ensures SameUpTo(a, b, d.tag) && (a == b || ':' !in Shorter(a, b))
  {
    SameBase(a, b, d);
    NameOfParts(a, d);
    NameOfParts(b, d);
    hide Base;
    hide Tag;
  }

  lemma DefaultTagKeepsBase(a: string, d: Defaults)
    requires Plain(d.tag) && ':' !in a
    ensures Base(a + ":" + d.tag) == a == Base(a)
  {
    TaggedName(a, d.tag, d);
    UntaggedName(a, d);
  }

  /** The paths of two names agree, with the same number of parts, exactly if the registry
      takes them for the same model and the shorter one, if they differ, has no tag. */
  lemma SamePathExactly(a: string, b: string)
    ensures PathOf(a) == PathOf(b) && |Parts(a)| == |Parts(b)| <==>
            SameModel(a, b) && (a == b || ':' !in Shorter(a, b))
  {
    var d := OLLAMA;
    SameModelIsSameUpToLatest(a, b);
    if PathOf(a) == PathOf(b) && |Parts(a)| == |Parts(b)| {
      SamePathIsMatch(a, b, d);
    }
    if SameModel(a, b) && (a == b || ':' !in Shorter(a, b)) {
      MatchAgreesExactly(a, b);
      if a == b + ":" + d.tag {
        DefaultTagKeepsBase(b, d);
      } else if a + ":" + d.tag == b {
        DefaultTagKeepsBase(a, d);
      }
    }
  }

  /** No path separator follows a colon. */
  predicate NoSlashAfterColon(s: string) {
    forall i, j :: 0 <= i < j < |s| && s[i] == ':' ==> s[j] != '/'
  }

  lemma NoSlashInTag(base: string, tag: string)
    requires NoSlashAfterColon(base + ":" + tag)
    ensures '/' !in ":" + tag
  {
    var s, x := base + ":" + tag, ":" + tag;
    assert s[|base|] == ':';
    assert forall j :: 0 <= j < |x| ==> s[|base| + j] == x[j];
  }

  lemma PartsOfWholeName(s: string)
    requires NoSlashAfterColon(s)
    ensures |Split(s, '/')| == |Parts(s)|
  {
    NameOfParts(s, OLLAMA);
    hide Base;
    hide Tag;
    hide Split;
    if ':' in s {
      var base, tag := Base(s), Tag(s, OLLAMA);
      NoSlashInTag(base, tag);
      SplitSuffix(base, ":" + tag, '/');
      assert base + (":" + tag) == s;
    }
  }

  /** The converse on ordinary names: equal paths and equally many path parts mean that the
      registry takes the names for the same model. */
  lemma SamePathMatches(a: string, b: string)
    requires NoSlashAfterColon(a) && NoSlashAfterColon(b)
    requires |Split(a, '/')| == |Split(b, '/')| && PathOf(a) == PathOf(b)
    ensures SameModel(a, b)
  {
    PartsOfWholeName(a);
    PartsOfWholeName(b);
    SamePathExactly(a, b);
  }

  /** Without equally many parts the converse fails: the registry does not know the default
      namespace. */
  lemma DefaultNamespaceDisagrees(name: string)
    requires Plain(name)
    ensures PathOf(OLLAMA.namespace + "/" + name) == PathOf(name)
    ensures !SameModel(OLLAMA.namespace + "/" + name, name)
  {
    hide PathWith;
    var long := OLLAMA.namespace + "/" + name;
    ShortNameDefaults(OLLAMA.namespace, name, OLLAMA.tag, OLLAMA);
    assert long[7] == '/';
    assert |long| == |name| + 8 && |name + ":latest"| == |name| + 7;
  }
}
