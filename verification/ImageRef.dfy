/** Image references as the SDK, the app and the worker each take them apart, and where they agree. */
module ImageRef {
  import opened Wrappers

  // ---------------------------------------------------------------- splitting

  /** `s.rsplit(c, 1)[-1]`: all of s when c does not occur. */
  function AfterLast(s: string, c: char): string {
    if c !in s then s else AfterLast(s[1..], c)
  }

  lemma {:induction false} AfterLastIsSuffix(s: string, c: char)
    ensures |AfterLast(s, c)| <= |s| && s[|s| - |AfterLast(s, c)|..] == AfterLast(s, c) && c !in AfterLast(s, c)
    ensures c in s ==> |AfterLast(s, c)| < |s| && s[|s| - |AfterLast(s, c)| - 1] == c
  {
    if c in s { AfterLastIsSuffix(s[1..], c); }
  }

  /** `s.rsplit(c, 1)[0]`. */
  function BeforeLast(s: string, c: char): string {
    AfterLastIsSuffix(s, c);
    if c in s then s[..|s| - |AfterLast(s, c)| - 1] else s
  }

  function BeforeFirst(s: string, c: char): string {
    if s == [] || s[0] == c then [] else [s[0]] + BeforeFirst(s[1..], c)
  }

  /** What follows the first c; s itself when there is none. */
  function AfterFirst(s: string, c: char): string {
    if c !in s then s else if s[0] == c then s[1..] else AfterFirst(s[1..], c)
  }

  lemma {:induction false} LastSplit(a: string, c: char, b: string)
    requires c !in b
    ensures AfterLast(a + [c] + b, c) == b && BeforeLast(a + [c] + b, c) == a
  {
    var s := a + [c] + b;
    assert s[|a|] == c;
    if a == [] {
      assert s[1..] == b;
    } else {
      assert s[1..] == a[1..] + [c] + b;
      LastSplit(a[1..], c, b);
    }
    assert s[..|a|] == a;
  }

  lemma LastSplits(s: string, c: char)
    requires c in s
    ensures s == BeforeLast(s, c) + [c] + AfterLast(s, c) && c !in AfterLast(s, c)
  {
  }

  // ---------------------------------------------------------------- the parsers and printers

  datatype Ref = Ref(registry: string, repository: string, tag: string, digest: Option<string>)

  predicate IsHost(component: string) {
    '.' in component || ':' in component || component == "localhost"
  }

  /** The registry, and what is left of a reference without digest. */
  function Registry(image: string): string {
    if '/' in image && IsHost(BeforeFirst(image, '/')) then BeforeFirst(image, '/') else "docker.io"
  }

  function Remainder(image: string): string {
    if '/' in image && IsHost(BeforeFirst(image, '/')) then AfterFirst(image, '/')
    else if '/' in image then image
    else "library/" + image
  }

  predicate HasTag(path: string) {
    ':' in AfterLast(path, '/')
  }

  function Repository(path: string): string {
    if HasTag(path) then BeforeLast(path, ':') else path
  }

  function Tag(path: string): string {
    if HasTag(path) then AfterLast(path, ':') else "latest"
  }

  /** The SDK's `parse_image_ref`. */
  function Parse(image: string): Ref {
    var name := if '@' in image then BeforeLast(image, '@') else image;
    Ref(Registry(name), Repository(Remainder(name)), Tag(Remainder(name)),
        if '@' in image then Some(AfterLast(image, '@')) else None)
  }

  /** The app's `image_with_digest`: the tag goes, the digest comes. */
  function WithDigest(image: string, digest: string): string {
    (if HasTag(image) then BeforeLast(image, ':') else image) + "@" + digest
  }

  predicate IsHex(c: char) {
    '0' <= c <= '9' || 'a' <= c <= 'f'
  }

  predicate IsDigest(s: string) {
    |s| == 71 && s[..7] == "sha256:" && forall k :: 7 <= k < 71 ==> IsHex(s[k])
  }

  /** The app's validation: its pattern ends in `$`, which also matches before a last newline. */
  predicate AppAccepts(digest: string) {
    IsDigest(digest) || (digest != [] && digest[|digest|-1] == '\n' && IsDigest(digest[..|digest|-1]))
  }

  /** The digest that ends at position end of the reference, with its "@". */
  predicate PinnedUpTo(image: string, end: nat)
    requires end <= |image|
  {
    end >= 72 && image[end - 72] == '@' && IsDigest(image[end - 71..end])
  }

  /** The worker's `ensure_digest_reference`; None when it raises. */
  function EnsureDigest(image: string): Option<string> {
    if PinnedUpTo(image, |image|) then Some(image[|image| - 71..])
    else if image != [] && image[|image|-1] == '\n' && PinnedUpTo(image, |image| - 1)
    then Some(image[|image| - 72..|image| - 1])
    else None
  }

  /** The registry under which the worker's `registry_auth_for` looks for credentials. */
  function AuthRegistry(image: string): string {
    var head := BeforeFirst(image, '/');
    if IsHost(head) then head else "docker.io"
  }

  type Credentials = map<string, string>

  /** An empty entry does not count as one. */
  function AuthFor(auth: map<string, Credentials>, image: string): Option<Credentials> {
    var registry := AuthRegistry(image);
    if registry in auth && auth[registry] != map[] then Some(auth[registry])
    else if "*" in auth then Some(auth["*"])
    else None
  }

  // ---------------------------------------------------------------- the SDK and the app

  /** The last path component has at most one colon. */
  predicate OneColon(image: string) {
    HasTag(image) ==> ':' !in BeforeLast(AfterLast(image, '/'), ':')
  }

  lemma {:induction false} LastOfTail(s: string, x: string, c: char)
    requires c !in x
    ensures AfterLast(s + x, c) == AfterLast(s, c) + x
  {
    if c in s {
      assert (s + x)[1..] == s[1..] + x;
      LastOfTail(s[1..], x, c);
    } else {
      assert c !in s + x;
    }
  }

  /** A tag is cut off: what is left ends in the last component without its tag. */
  lemma TagOff(image: string)
    requires HasTag(image)
    ensures var base, tag := BeforeLast(image, ':'), AfterLast(image, ':');
      && image == base + ":" + tag && ':' !in tag && '/' !in tag
      && AfterLast(base, '/') == BeforeLast(AfterLast(image, '/'), ':')
  {
    var last := AfterLast(image, '/');
    AfterLastIsSuffix(image, '/');
    var before := image[..|image| - |last|];
    LastSplits(last, ':');
    assert image == before + last;
    EndsInSlash(image, before, last);
    TagOffLast(image, before, BeforeLast(last, ':'), AfterLast(last, ':'));
  }

  lemma TagOffLast(image: string, before: string, front: string, tag: string)
    requires image == before + (front + [':'] + tag) && ':' !in tag && '/' !in front + [':'] + tag
    requires AfterLast(before, '/') == []
    ensures BeforeLast(image, ':') == before + front && AfterLast(image, ':') == tag
    ensures image == before + front + ":" + tag && '/' !in tag
    ensures AfterLast(before + front, '/') == front
  {
    assert image == (before + front) + [':'] + tag;
    LastSplit(before + front, ':', tag);
    assert forall x :: x in front || x in tag ==> x in front + [':'] + tag;
    LastOfTail(before, front, '/');
  }

  lemma EndsInSlash(image: string, before: string, last: string)
    requires image == before + last && last == AfterLast(image, '/')
    ensures AfterLast(before, '/') == []
  {
    AfterLastIsSuffix(image, '/');
    if '/' in image {
      assert before == before[..|before|-1] + ['/'] + [];
      LastSplit(before[..|before|-1], '/', []);
    } else {
      assert before == [];
    }
  }

  /** The same path with and without its tag. */
  lemma RepositoryWithTag(path: string, tag: string)
    requires ':' !in tag && '/' !in tag
    ensures Repository(path + ":" + tag) == path
    ensures Repository(path) == path <==> ':' !in AfterLast(path, '/')
  {
    var tagged := path + ":" + tag;
    assert tagged == path + (":" + tag);
    LastOfTail(path, ":" + tag, '/');
    assert (":" + tag)[0] == ':';
    assert ':' in AfterLast(path, '/') + (":" + tag);
    LastSplit(path, ':', tag);
    if ':' in AfterLast(path, '/') {
      AfterLastIsSuffix(path, '/');
      assert ':' in path;
      AfterLastIsSuffix(path, ':');
      assert |BeforeLast(path, ':')| < |path|;
    }
  }

  lemma {:induction false} FirstOfTail(s: string, x: string, c: char)
    requires c in s
    ensures BeforeFirst(s + x, c) == BeforeFirst(s, c) && AfterFirst(s + x, c) == AfterFirst(s, c) + x
  {
    assert (s + x)[0] == s[0] && (s + x)[1..] == s[1..] + x;
    if s[0] != c { FirstOfTail(s[1..], x, c); }
  }

  lemma {:induction false} LastOfAfterFirst(s: string, c: char)
    ensures AfterLast(AfterFirst(s, c), c) == AfterLast(s, c)
  {
    if c in s && s[0] != c { LastOfAfterFirst(s[1..], c); }
  }

  lemma RemainderOfTail(base: string, tail: string)
    requires '/' !in tail
    ensures Registry(base + tail) == Registry(base) && Remainder(base + tail) == Remainder(base) + tail
  {
    if '/' in base {
      FirstOfTail(base, tail, '/');
    } else {
      assert '/' !in base + tail;
      assert "library/" + (base + tail) == ("library/" + base) + tail;
    }
  }

  lemma LastOfRemainder(base: string)
    ensures AfterLast(Remainder(base), '/') == AfterLast(base, '/')
  {
    if '/' in base {
      LastOfAfterFirst(base, '/');
    } else {
      assert "library/" + base == "library" + ['/'] + base;
      LastSplit("library", '/', base);
    }
  }

  lemma RemainderWithTag(base: string, tag: string)
    requires '/' !in tag
    ensures Registry(base + ":" + tag) == Registry(base)
    ensures Remainder(base + ":" + tag) == Remainder(base) + ":" + tag
    ensures AfterLast(Remainder(base), '/') == AfterLast(base, '/')
  {
    var tail := ":" + tag;
    assert base + ":" + tag == base + tail;
    RemainderOfTail(base, tail);
    LastOfRemainder(base);
    assert Remainder(base) + ":" + tag == Remainder(base) + tail;
  }

  lemma NameOfPinned(base: string, digest: string)
    requires '@' !in digest
    ensures Parse(base + "@" + digest)
         == Ref(Registry(base), Repository(Remainder(base)), Tag(Remainder(base)), Some(digest))
  {
    LastSplit(base, '@', digest);
    assert (base + ['@'] + digest)[|base|] == '@';
  }

  lemma DigestHasNoAt(digest: string)
    requires AppAccepts(digest)
    ensures '@' !in digest && '/' !in digest
  {
    var bare := if IsDigest(digest) then digest else digest[..|digest|-1];
    assert bare <= digest && IsDigest(bare);
    forall k | 0 <= k < |bare| ensures bare[k] != '@' && bare[k] != '/' {
      if k < 7 { assert bare[k] == "sha256:"[k]; }
    }
  }

  /** What the SDK reads from the reference the app pins is what it reads from the image itself, with the digest, if
      and only if the last component has at most one colon. */
  lemma ParseAfterPinning(image: string, digest: string)
    requires '@' !in image && AppAccepts(digest)
    ensures Parse(WithDigest(image, digest)).digest == Some(digest)
    ensures Parse(WithDigest(image, digest)).registry == Parse(image).registry
    ensures Parse(WithDigest(image, digest)).repository == Parse(image).repository <==> OneColon(image)
  {
    DigestHasNoAt(digest);
    if HasTag(image) {
      TagOff(image);
      var base, tag := BeforeLast(image, ':'), AfterLast(image, ':');
      NameOfPinned(base, digest);
      RemainderWithTag(base, tag);
      RepositoryWithTag(Remainder(base), tag);
    } else {
      NameOfPinned(image, digest);
    }
  }

  // ---------------------------------------------------------------- what the parser reads

  /** A path without tag: its last component, and what comes before it. */
  ghost predicate IsPath(front: string, last: string) {
    && (front == "" || front[|front|-1] == '/') && '@' !in front
    && last != "" && '/' !in last && ':' !in last && '@' !in last
  }

  ghost predicate IsTag(tag: string) {
    ':' !in tag && '/' !in tag && '@' !in tag
  }

  lemma LastOfPath(front: string, last: string)
    requires IsPath(front, last)
    ensures AfterLast(front + last, '/') == last && '@' !in front + last
  {
    if front != "" {
      assert front + last == front[..|front|-1] + ['/'] + last;
      LastSplit(front[..|front|-1], '/', last);
    } else {
      assert front + last == last;
    }
  }

  lemma TagOfTagged(path: string, tag: string)
    requires IsTag(tag)
    ensures Tag(path + ":" + tag) == tag
  {
    LastSplit(path, ':', tag);
    LastOfTail(path, ":" + tag, '/');
    assert path + ":" + tag == path + (":" + tag);
    assert (":" + tag)[0] == ':';
  }

  /** A name without digest, and the same name with one. */
  lemma ParseNamed(name: string, repository: string, tag: string, digest: string)
    requires '@' !in name && '@' !in digest
    requires Repository(Remainder(name)) == repository && Tag(Remainder(name)) == tag
    ensures Parse(name) == Ref(Registry(name), repository, tag, None)
    ensures Parse(name + "@" + digest) == Ref(Registry(name), repository, tag, Some(digest))
  {
    NameOfPinned(name, digest);
  }

  /** What the parser reads from a reference: the host, the path below it, the tag and the digest. */
  ghost predicate Reads(image: string, registry: string, repository: string, tag: string, digest: string) {
    && Parse(image) == Ref(registry, repository, "latest", None)
    && Parse(image + ":" + tag) == Ref(registry, repository, tag, None)
    && Parse(image + "@" + digest) == Ref(registry, repository, "latest", Some(digest))
    && Parse(image + ":" + tag + "@" + digest) == Ref(registry, repository, tag, Some(digest))
  }

  lemma ParseParts(base: string, tag: string, digest: string)
    requires '@' !in base && ':' !in AfterLast(base, '/') && IsTag(tag) && '@' !in digest
    ensures Reads(base, Registry(base), Remainder(base), tag, digest)
  {
    LastOfRemainder(base);
    RemainderWithTag(base, tag);
    RepositoryWithTag(Remainder(base), tag);
    TagOfTagged(Remainder(base), tag);
    ParseNamed(base, Remainder(base), "latest", digest);
    ParseNamed(base + ":" + tag, Remainder(base), tag, digest);
  }

  /** A first component with a dot or a colon in it, or "localhost", is the registry. */
  lemma HostedImage(host: string, front: string, last: string, tag: string, digest: string)
    requires '/' !in host && '@' !in host && ('.' in host || ':' in host || host == "localhost")
    requires IsPath(front, last) && IsTag(tag) && '@' !in digest
    ensures Reads(host + "/" + (front + last), host, front + last, tag, digest)
  {
    var image := host + "/" + (front + last);
    LastOfPath(front, last);
    assert image == (host + "/" + front) + last;
    assert (host + "/" + front)[|host + "/" + front| - 1] == '/';
    LastOfPath(host + "/" + front, last);
    FirstComponent(host, front + last);
    ParseParts(image, tag, digest);
  }

  lemma {:induction false} FirstComponent(host: string, rest: string)
    requires '/' !in host
    ensures BeforeFirst(host + "/" + rest, '/') == host && AfterFirst(host + "/" + rest, '/') == rest
  {
    var s := host + "/" + rest;
    assert s[|host|] == '/';
    if host != "" {
      assert s[0] == host[0] && s[1..] == host[1..] + "/" + rest;
      FirstComponent(host[1..], rest);
    }
  }

  /** Any other first component belongs to a path on Docker Hub. */
  lemma HubImage(first: string, front: string, last: string, tag: string, digest: string)
    requires '/' !in first && '@' !in first && '.' !in first && ':' !in first && first != "localhost"
    requires IsPath(front, last) && IsTag(tag) && '@' !in digest
    ensures Reads(first + "/" + (front + last), "docker.io", first + "/" + (front + last), tag, digest)
  {
    var image := first + "/" + (front + last);
    assert image == (first + "/" + front) + last;
    assert (first + "/" + front)[|first + "/" + front| - 1] == '/';
    LastOfPath(first + "/" + front, last);
    FirstComponent(first, front + last);
    ParseParts(image, tag, digest);
  }

  /** A bare name is one of Docker Hub's own images, whatever it is called. */
  lemma BareImage(name: string, tag: string, digest: string)
    requires IsPath("", name) && IsTag(tag) && '@' !in digest
    ensures Reads(name, "docker.io", "library/" + name, tag, digest)
  {
    LastOfPath("", name);
    assert "" + name == name;
    ParseParts(name, tag, digest);
  }

  // ---------------------------------------------------------------- the app and the worker

  /** A digest is "sha256:" and 64 lower-case hexadecimal digits. */
  lemma DigestIs(s: string)
    ensures IsDigest(s) <==> |s| == 7 + 64 && s[..7] == "sha256:" && forall c :: c in s[7..] ==> c in "0123456789abcdef"
  {
    if |s| == 71 {
      assert forall k :: 7 <= k < 71 ==> s[k] == s[7..][k-7];
      assert forall c: char :: IsHex(c) <==> c in "0123456789abcdef";
    }
  }

  lemma LastIsHex(image: string)
    requires PinnedUpTo(image, |image|)
    ensures IsHex(image[|image|-1])
  {
  }

  /** The reference ends in this digest, possibly followed by a newline. */
  ghost predicate EndsIn(image: string, base: string, digest: string) {
    IsDigest(digest) && (image == base + "@" + digest || image == base + "@" + digest + "\n")
  }

  /** The worker reads a digest from a reference if and only if the reference ends in it. */
  lemma EnsureIs(image: string, digest: string)
    ensures EnsureDigest(image) == Some(digest) <==> exists base :: EndsIn(image, base, digest)
  {
    if EnsureDigest(image) == Some(digest) {
      var end := if PinnedUpTo(image, |image|) then |image| else |image| - 1;
      assert image[..end] == image[..end-72] + "@" + image[end-71..end];
      assert image == image[..end] + image[end..];
      assert EndsIn(image, image[..end-72], digest);
    }
    if base :| EndsIn(image, base, digest) { EndIsRead(image, base, digest); }
  }

  lemma EndIsRead(image: string, base: string, digest: string)
    requires EndsIn(image, base, digest)
    ensures EnsureDigest(image) == Some(digest)
  {
    var n := |base| + 72;
    assert image[n - 71..n] == digest && image[n - 72] == '@' && PinnedUpTo(image, n);
    if n < |image| {
      assert image[n] == '\n';
      if PinnedUpTo(image, |image|) { LastIsHex(image); }
    }
  }

  /** The worker accepts every reference the app pins, and takes exactly that digest from it unless the digest that
      the app accepted ends in a newline. */
  lemma WorkerAcceptsPinned(image: string, digest: string)
    requires AppAccepts(digest)
    ensures EnsureDigest(WithDigest(image, digest)).Some?
    ensures EnsureDigest(WithDigest(image, digest)) == Some(digest) <==> IsDigest(digest)
  {
    var base := if HasTag(image) then BeforeLast(image, ':') else image;
    var ref := base + "@" + digest;
    if IsDigest(digest) {
      assert ref[|ref| - 71..] == digest && ref[|ref| - 72] == '@';
    } else {
      var d := digest[..|digest|-1];
      assert ref[|ref| - 72..|ref| - 1] == d && ref[|ref| - 73] == '@' && ref[|ref| - 1] == '\n';
      if PinnedUpTo(ref, |ref|) { LastIsHex(ref); }
    }
  }

  lemma {:induction false} FirstAbsent(s: string, c: char)
    requires c !in s
    ensures BeforeFirst(s, c) == s
  {
    if s != [] { FirstAbsent(s[1..], c); }
  }

  /** The worker looks for credentials under the registry the SDK knows the image by if and only if the image names a
      path: in a bare image name the pinned digest's colon makes the whole reference look like a host. */
  lemma RegistriesAgree(image: string, digest: string)
    requires '@' !in image && AppAccepts(digest)
    ensures AuthRegistry(WithDigest(image, digest)) == Parse(image).registry <==> '/' in image
  {
    DigestHasNoAt(digest);
    var base := if HasTag(image) then BeforeLast(image, ':') else image;
    var tail := "@" + digest;
    var ref := WithDigest(image, digest);
    assert ref == base + tail;
    if HasTag(image) { TagOff(image); }
    if '/' in image {
      SlashStays(image, base);
      FirstOfTail(base, tail, '/');
      if HasTag(image) {
        FirstOfTail(base, ":" + AfterLast(image, ':'), '/');
        assert image == base + (":" + AfterLast(image, ':'));
      }
    } else {
      NoSlash(base, digest);
    }
  }

  lemma SlashStays(image: string, base: string)
    requires '/' in image && (if HasTag(image) then base == BeforeLast(image, ':') else base == image)
    ensures '/' in base
  {
    if HasTag(image) {
      TagOff(image);
      var tail := ":" + AfterLast(image, ':');
      assert image == base + tail;
      assert '/' !in tail;
    }
  }

  lemma NoSlash(base: string, digest: string)
    requires '/' !in base && AppAccepts(digest)
    ensures AuthRegistry(base + "@" + digest) == base + "@" + digest != "docker.io"
  {
    DigestHasNoAt(digest);
    var ref := base + "@" + digest;
    assert '/' !in ref;
    FirstAbsent(ref, '/');
    var d := if IsDigest(digest) then digest else digest[..|digest|-1];
    assert ref[|base| + 7] == digest[6] == d[..7][6] == "sha256:"[6] == ':';
    assert |ref| > 60;
  }

  /** Credentials are those of the first component, when that is a host, or else of docker.io; the fallback entry
      stands in for a missing or an empty one. */
  lemma CredentialsOf(auth: map<string, Credentials>, first: string, rest: string)
    requires '/' !in first
    ensures var isHost := '.' in first || ':' in first || first == "localhost";
      var registry := if isHost then first else "docker.io";
      var found := AuthFor(auth, first + "/" + rest);
      && (registry in auth && |auth[registry]| > 0 ==> found == Some(auth[registry]))
      && (registry !in auth || |auth[registry]| == 0 ==> found == if "*" in auth then Some(auth["*"]) else None)
  {
    FirstComponent(first, rest);
  }

  /** So credentials that are filed under docker.io are not found for a bare image: only the fallback entry is. */
  lemma BareImageMissesCredentials(auth: map<string, Credentials>, image: string, digest: string)
    requires '@' !in image && AppAccepts(digest) && '/' !in image && WithDigest(image, digest) !in auth
    ensures AuthFor(auth, WithDigest(image, digest)) == if "*" in auth then Some(auth["*"]) else None
  {
    if HasTag(image) { TagOff(image); }
    NoSlash(if HasTag(image) then BeforeLast(image, ':') else image, digest);
  }
}
