/** Image references of modules: splitting one into registry, repository and tag, and back. */
module ImageRef {

  datatype Reference = Reference(registry: string, repository: string, tag: string)

  /** strings.LastIndex for one character: -1 when absent. */
  function LastIndex(s: string, c: char): (i: int)
    ensures -1 <= i < |s|
    ensures i >= 0 ==> s[i] == c
    ensures forall j :: i < j < |s| ==> s[j] != c
  {
    if s == [] then -1
    else if s[|s| - 1] == c then |s| - 1
    else LastIndex(s[..|s| - 1], c)
  }

  /** strings.Index for one character: -1 when absent. */
  function Index(s: string, c: char): (i: int)
    ensures -1 <= i < |s|
    ensures i >= 0 ==> s[i] == c && c !in s[..i]
    ensures i < 0 <==> c !in s
  {
    if s == [] then -1
    else if s[0] == c then 0
    else
      var i := Index(s[1..], c);
      if i < 0 then -1 else i + 1
  }

  /** strings.Cut at the first slash; everything is repository without one. */
  function Split(image: string): (string, string) {
    var i := Index(image, '/');
    if i < 0 then ("", image) else (image[..i], image[i + 1..])
  }

  /** A colon in first position does not start a tag. */
  function Parse(s: string): Reference {
    var i := LastIndex(s, ':');
    var (registry, repository) := Split(if i > 0 then s[..i] else s);
    Reference(registry, repository, if i > 0 then s[i + 1..] else "")
  }

  function Base(registry: string, repository: string): string {
    if registry == "" then repository else registry + "/" + repository
  }

  /** The reference put together again, with a slash and a colon where there is something to separate. */
  function Print(r: Reference): string {
    Base(r.registry, r.repository) + if r.tag == "" then "" else ":" + r.tag
  }

  /** Joining a split image gives it back unless it starts with a slash, which is lost. */
  lemma SplitBase(image: string)
    ensures var (r, p) := Split(image);
            if image != "" && image[0] == '/' then |Base(r, p)| < |image| else Base(r, p) == image
  {
    var i := Index(image, '/');
    if i > 0 {
      assert image == image[..i] + "/" + image[i + 1..];
    }
  }

  lemma ParseTagged(s: string, image: string, tag: string)
    requires s == image + ":" + tag && image != "" && ':' !in tag
    ensures Parse(s) == Reference(Split(image).0, Split(image).1, tag)
  {
    LastColonAt(s, image, tag);
    assert s[..|image|] == image && s[|image| + 1..] == tag;
  }

  lemma Rejoined(s: string, image: string, base: string, tag: string)
    requires s == image + ":" + tag && (|base| < |image| || base == image)
    ensures base + (if tag == "" then "" else ":" + tag) == s <==> tag != "" && base == image
  {
    if tag != "" {
      assert |base + (":" + tag)| == |base| + 1 + |tag|;
      assert image + (":" + tag) == s;
    }
  }

  /** The case of a string with a tag separator. */
  lemma PrintTagged(s: string, image: string, tag: string)
    requires s == image + ":" + tag && image != "" && ':' !in tag
    ensures Print(Parse(s)) == s <==> tag != "" && s[0] != '/'
  {
    ParseTagged(s, image, tag);
    SplitBase(image);
    Rejoined(s, image, Base(Split(image).0, Split(image).1), tag);
    assert image[0] == s[0];
  }

  lemma PrintAt(s: string, i: int)
    requires i == LastIndex(s, ':') && i > 0
    ensures Print(Parse(s)) == s <==> i < |s| - 1 && s[0] != '/'
  {
    TagHasNoColon(s, i);
    Rejoin(s, i);
    PrintTagged(s, s[..i], s[i + 1..]);
  }

  lemma Rejoin(s: string, i: int)
    requires 0 <= i < |s| && s[i] == ':'
    ensures s == s[..i] + ":" + s[i + 1..]
  {
  }

  lemma TagHasNoColon(s: string, i: int)
    requires 0 <= i < |s| && forall j :: i < j < |s| ==> s[j] != ':'
    ensures ':' !in s[i + 1..]
  {
  }

  /** Printing what was parsed gives the string back, except exactly when its last colon is its last
      character past position 0, or the string starts with a slash. */
  lemma PrintParse(s: string)
    ensures var i := LastIndex(s, ':');
            Print(Parse(s)) == s <==> !(i > 0 && i == |s| - 1) && (s == "" || s[0] != '/')
  {
    if LastIndex(s, ':') > 0 {
      PrintAt(s, LastIndex(s, ':'));
    } else {
      PrintUntagged(s);
    }
  }

  lemma PrintUntagged(s: string)
    requires LastIndex(s, ':') <= 0
    ensures Print(Parse(s)) == s <==> s == "" || s[0] != '/'
  {
    SplitBase(s);
    var r := Parse(s);
    assert r.tag == "" && Print(r) == Base(Split(s).0, Split(s).1) + "";
    assert Print(r) == Base(Split(s).0, Split(s).1);
  }

  lemma IndexIs(s: string, c: char, i: nat)
    requires i < |s| && s[i] == c && forall j :: 0 <= j < i ==> s[j] != c
    ensures Index(s, c) == i
  {
  }

  lemma LastIndexIs(s: string, c: char, i: int)
    requires -1 <= i < |s| && (i >= 0 ==> s[i] == c) && forall j :: i < j < |s| ==> s[j] != c
    ensures LastIndex(s, c) == i
  {
  }

  lemma SplitOfBase(registry: string, repository: string)
    ensures Split(Base(registry, repository)) == (registry, repository) <==> Splits(registry, repository)
  {
    var image := Base(registry, repository);
    var i := Index(image, '/');
    if registry != "" {
      assert image[..|registry|] == registry && image[|registry| + 1..] == repository;
      if '/' !in registry {
        assert forall j :: 0 <= j < |registry| ==> image[j] == registry[j] && registry[j] in registry;
        IndexIs(image, '/', |registry|);
      } else {
        var k := Index(registry, '/');
        assert forall j :: 0 <= j < k ==> registry[j] in registry[..k];
        IndexIs(image, '/', k);
      }
    }
  }

  predicate Splits(registry: string, repository: string) {
    '/' !in registry && (registry == "" ==> '/' !in repository)
  }

  lemma ParsePrintTagged(registry: string, repository: string, tag: string)
    requires tag != ""
    ensures Parse(Print(Reference(registry, repository, tag))) == Reference(registry, repository, tag) <==>
            Splits(registry, repository) && ':' !in tag && Base(registry, repository) != ""
  {
    var base := Base(registry, repository);
    var s := Print(Reference(registry, repository, tag));
    assert s == base + ":" + tag;
    if ':' in tag {
      LongTagIsCut(s, base, tag);
    } else if base == "" {
      LastColonAt(s, base, tag);
    } else {
      ParseTagged(s, base, tag);
      SplitOfBase(registry, repository);
    }
  }

  lemma LastColonAt(s: string, base: string, tag: string)
    requires s == base + ":" + tag && ':' !in tag
    ensures LastIndex(s, ':') == |base|
  {
    assert forall j :: |base| < j < |s| ==> s[j] == tag[j - |base| - 1] && s[j] in tag;
    LastIndexIs(s, ':', |base|);
  }

  lemma LongTagIsCut(s: string, base: string, tag: string)
    requires s == base + ":" + tag && ':' in tag
    ensures |Parse(s).tag| < |tag|
  {
    var k :| 0 <= k < |tag| && tag[k] == ':';
    assert s[|base| + 1 + k] == ':';
    assert LastIndex(s, ':') > |base|;
  }

  lemma ParsePrintUntagged(registry: string, repository: string)
    ensures Parse(Print(Reference(registry, repository, ""))) == Reference(registry, repository, "") <==>
            Splits(registry, repository) && LastIndex(Base(registry, repository), ':') <= 0
  {
    var base := Base(registry, repository);
    assert Print(Reference(registry, repository, "")) == base;
    var i := LastIndex(base, ':');
    if i > 0 {
      ShorterDiffers(registry, repository, i);
    } else {
      SplitOfBase(registry, repository);
    }
  }

  /** Parsing what was printed gives the parts back exactly under this condition on the parts. */
  lemma ParsePrint(registry: string, repository: string, tag: string)
    ensures Parse(Print(Reference(registry, repository, tag))) == Reference(registry, repository, tag) <==>
              && Splits(registry, repository)
              && ':' !in tag
              && var base := Base(registry, repository);
                 if tag == "" then LastIndex(base, ':') <= 0 else base != ""
  {
    if tag == "" {
      ParsePrintUntagged(registry, repository);
    } else {
      ParsePrintTagged(registry, repository, tag);
    }
  }

  /** Cutting a tag off the untagged print leaves different parts. */
  lemma ShorterDiffers(registry: string, repository: string, i: int)
    requires var base := Base(registry, repository); 0 < i < |base|
    ensures Split(Base(registry, repository)[..i]) != (registry, repository)
  {
    var image := Base(registry, repository)[..i];
    var (r, p) := Split(image);
    var k := Index(image, '/');
    if k < 0 {
      assert r == "" && p == image;
    } else {
      assert |r| + 1 + |p| == |image|;
    }
  }
}
