/** Which registry an image reference names, and when it is refused
    (pkg/validator/validator.go). */
module Registry {
  import opened Options
  import opened Strings

  const DOCKER_HUB := "docker.io"

  // ---------------------------------------------------------------- the simple rule

  /** The text before the first `c`, all of it if there is none. */
  function Before(s: string, c: char): string {
    if s == "" || s[0] == c then "" else [s[0]] + Before(s[1..], c)
  }

  predicate NamesHost(first: string) {
    '.' in first || ':' in first || first == "localhost"
  }

  function RegistryOfName(name: string): string {
    if '/' in name && NamesHost(Before(name, '/')) then Before(name, '/') else DOCKER_HUB
  }

  /** Cut at the first @; what precedes the first slash is the registry if it looks like a
      host, and everything else lives on Docker Hub. */
  function RegistryOf(image: string): string {
    RegistryOfName(Before(image, '@'))
  }

  /** What follows the first occurrence does not matter. */
  lemma {:induction false} BeforeHit(a: string, b: string, c: char)
    requires c in a
    ensures Before(a + b, c) == Before(a, c)
  {
    var s := a + b;
    assert s[0] == a[0];
    if a[0] != c {
      assert s[1..] == a[1..] + b;
      BeforeHit(a[1..], b, c);
    }
  }

  lemma {:induction false} BeforeMiss(a: string, b: string, c: char)
    requires c !in a
    ensures Before(a + b, c) == a + Before(b, c)
  {
    if a == "" {
      assert a + b == b && a + Before(b, c) == Before(b, c);
    } else {
      var s, rest := a + b, a[1..];
      assert s[0] == a[0] && s[1..] == rest + b;
      BeforeMiss(rest, b, c);
      assert [a[0]] + (rest + Before(b, c)) == a + Before(b, c);
    }
  }

  lemma NothingToCut(s: string, c: char)
    requires c !in s
    ensures Before(s, c) == s
  {
    BeforeMiss(s, "", c);
    assert s + "" == s;
  }

  /** The first occurrence is where Before stops. */
  lemma BeforeStops(s: string, c: char, i: nat)
    requires i < |s| && s[i] == c && c !in s[..i]
    ensures Before(s, c) == s[..i]
  {
    assert s == s[..i] + s[i..];
    BeforeMiss(s[..i], s[i..], c);
    assert s[..i] + "" == s[..i];
    assert Before(s[i..], c) == "";
  }

  /** Stripping what lies behind a slash leaves the registry alone. */
  lemma CutBehindSlash(name: string, k: nat)
    requires k <= |name| && ('/' in name ==> '/' in name[..k])
    ensures RegistryOfName(name[..k]) == RegistryOfName(name)
    ensures '/' in name ==> Before(name[..k], '/') == Before(name, '/')
  {
    assert name == name[..k] + name[k..];
    if '/' in name[..k] {
      var i :| 0 <= i < k && name[..k][i] == '/';
      assert name[i] == '/';
      BeforeHit(name[..k], name[k..], '/');
    }
  }

  // ---------------------------------------------------------------- package strings

  /** strings.Index of one character, -1 when absent. */
  method Index(s: string, c: char) returns (i: int)
    ensures -1 <= i < |s|
    ensures i == -1 ==> c !in s && Before(s, c) == s
    ensures i >= 0 ==> s[i] == c && Before(s, c) == s[..i]
  {
    for k := 0 to |s|
      invariant c !in s[..k]
    {
      if s[k] == c {
        BeforeStops(s, c, k);
        return k;
      }
    }
    assert s[..|s|] == s;
    NothingToCut(s, c);
    return -1;
  }

  /** strings.LastIndex of one character, -1 when absent. */
  method LastIndex(s: string, c: char) returns (i: int)
    ensures -1 <= i < |s|
    ensures i == -1 <==> c !in s
    ensures i >= 0 ==> s[i] == c && c !in s[i + 1..]
  {
    for k := |s| downto 0
      invariant c !in s[k..]
    {
      if s[k] == c {
        return k;
      }
    }
    return -1;
  }

  function Joined(parts: seq<string>, c: char): string {
    if parts == [] then ""
    else if |parts| == 1 then parts[0]
    else parts[0] + [c] + Joined(parts[1..], c)
  }

  lemma {:induction false} JoinedSplit(parts: seq<string>, rest: string, c: char, i: nat)
    requires i < |rest| && rest[i] == c
    ensures Joined(parts + [rest[..i]] + [rest[i + 1..]], c) == Joined(parts + [rest], c)
    decreases |parts|
  {
    var old_, new_ := parts + [rest], parts + [rest[..i]] + [rest[i + 1..]];
    if parts == [] {
      assert new_[1..] == [rest[i + 1..]];
      assert rest == rest[..i] + [c] + rest[i + 1..];
    } else {
      assert old_[1..] == parts[1..] + [rest];
      assert new_[1..] == parts[1..] + [rest[..i]] + [rest[i + 1..]];
      JoinedSplit(parts[1..], rest, c, i);
    }
  }

  lemma {:induction false} BeforeHasNone(s: string, c: char)
    ensures c !in Before(s, c)
  {
    if s != "" && s[0] != c {
      BeforeHasNone(s[1..], c);
    }
  }

  /** strings.Split at every occurrence of one character, of which there is one fewer than
      there are parts. */
  method Split(s: string, c: char) returns (parts: seq<string>)
    ensures |parts| >= 1 && (|parts| == 1 <==> c !in s)
    ensures parts[0] == Before(s, c)
    ensures Joined(parts, c) == s && forall k | 0 <= k < |parts| :: c !in parts[k]
  {
    parts := [];
    var rest := s;
    while true
      invariant c in s <==> parts != [] || c in rest
      invariant forall k | 0 <= k < |parts| :: c !in parts[k]
      invariant parts != [] ==> parts[0] == Before(s, c)
      invariant parts == [] ==> rest == s
      invariant Joined(parts + [rest], c) == s
      decreases |rest|
    {
      var i := Index(rest, c);
      if i == -1 {
        parts := parts + [rest];
        return;
      }
      BeforeHasNone(rest, c);
      JoinedSplit(parts, rest, c, i);
      parts := parts + [rest[..i]];
      rest := rest[i + 1..];
    }
  }

  // ---------------------------------------------------------------- extractRegistry

  /** Cuts a tag, that is, a last colon behind the last slash. */
  method StripTag(name: string) returns (ref: string)
    ensures ref <= name
    ensures ref != name ==> name[|ref|] == ':' && forall k | |ref| < k < |name| :: name[k] != ':' && name[k] != '/'
    ensures ref == name ==> forall k | 0 <= k < |name| && name[k] == ':' :: ':' in name[k + 1..] || '/' in name[k + 1..]
    ensures RegistryOfName(ref) == RegistryOfName(name)
  {
    ref := name;
    var colonIdx := LastIndex(ref, ':');
    if colonIdx != -1 {
      var slashIdx := LastIndex(ref, '/');
      if colonIdx > slashIdx {
        if slashIdx >= 0 {
          assert name[..colonIdx][slashIdx] == '/';
        }
        CutBehindSlash(name, colonIdx);
        ref := ref[..colonIdx];
      }
    }
  }

  /** The steps of the source: cut the digest, cut the tag, split at slashes. */
  method ExtractRegistry(image: string) returns (registry: string)
    ensures registry == RegistryOf(image)
  {
    var ref := image;
    var atIdx := Index(ref, '@');
    if atIdx != -1 {
      ref := ref[..atIdx];
    }
    ref := StripTag(ref);
    var parts := Split(ref, '/');
    if |parts| == 1 {
      return DOCKER_HUB;
    }
    var first := parts[0];
    if '.' in first || ':' in first || first == "localhost" {
      return first;
    }
    return DOCKER_HUB;
  }

  // ---------------------------------------------------------------- tags and digests

  /** A digest never changes the registry. */
  lemma DigestIsIrrelevant(image: string, digest: string)
    ensures RegistryOf(image + "@" + digest) == RegistryOf(image)
  {
    var suffix := "@" + digest;
    assert image + "@" + digest == image + suffix;
    if '@' in image {
      BeforeHit(image, suffix, '@');
    } else {
      BeforeMiss(image, suffix, '@');
      NothingToCut(image, '@');
      assert suffix[0] == '@' && image + "" == image;
    }
  }

  lemma TaggedName(image: string, tag: string)
    requires '@' !in image
    ensures Before(image + ":" + tag, '@') == image + ":" + Before(tag, '@')
    ensures Before(image, '@') == image
  {
    NothingToCut(image, '@');
    var front := image + ":";
    assert front[|image|] == ':' && forall k | 0 <= k < |image| :: front[k] == image[k];
    BeforeMiss(front, tag, '@');
  }

  /** A tag that brings in the first slash turns everything before it into a host. */
  lemma TagWithSlash(image: string, tag: string)
    requires '/' !in image && '/' in tag
    ensures RegistryOfName(image + ":" + tag) == image + ":" + Before(tag, '/')
    ensures RegistryOfName(image) == DOCKER_HUB != image + ":" + Before(tag, '/')
  {
    var front := image + ":";
    assert front[|image|] == ':' && forall k | 0 <= k < |image| :: front[k] == image[k];
    BeforeMiss(front, tag, '/');
    var k :| 0 <= k < |tag| && tag[k] == '/';
    assert (front + tag)[|front| + k] == '/';
    var first := front + Before(tag, '/');
    assert first[|image|] == ':';
    assert ':' in first && ':' !in DOCKER_HUB;
  }

  /** MAIN RESULT.  Exactly when a suffix `:tag` leaves the registry alone: the reference
      already has a digest or a slash, or the tag has no slash before any @ of its own. */
  lemma TagIsIrrelevantIff(image: string, tag: string)
    ensures RegistryOf(image + ":" + tag) == RegistryOf(image)
       <==> '@' in image || '/' in image || '/' !in Before(tag, '@')
  {
    if '@' in image {
      var suffix := ":" + tag;
      assert image + ":" + tag == image + suffix;
      BeforeHit(image, suffix, '@');
    } else {
      TaggedName(image, tag);
      var cut := Before(tag, '@');
      var name := image + ":" + cut;
      if '/' in image {
        assert name[..|image|] == image;
        CutBehindSlash(name, |image|);
      } else if '/' in cut {
        TagWithSlash(image, cut);
      } else {
        assert '/' !in name;
      }
    }
  }

  // ---------------------------------------------------------------- every reference

  /** Does the text before the first slash name a registry host? */
  predicate LooksLikeHost(host: string) {
    (exists k | 0 <= k < |host| :: host[k] == '.' || host[k] == ':') || host == "localhost"
  }

  /** MAIN RESULT.  The registry of a reference with a slash: what stands before the first
      slash if it holds a dot or a colon or is "localhost", and Docker Hub otherwise. */
  lemma RegistryOfReference(host: string, rest: string)
    requires '/' !in host && '@' !in host
    ensures RegistryOf(host + "/" + rest) == if LooksLikeHost(host) then host else "docker.io"
  {
    var front, cut := host + "/", Before(rest, '@');
    BeforeMiss(front, rest, '@');
    var name := front + cut;
    assert name[|host|] == '/';
    var tail := "/" + cut;
    assert name == host + tail && tail[0] == '/';
    BeforeMiss(host, tail, '/');
    assert Before(tail, '/') == "" && host + "" == host;
  }

  /** A name without a slash, digest or not, lives on Docker Hub.  Every reference has one of
      the two forms. */
  lemma RegistryOfPlainName(name: string, digest: string)
    requires '/' !in name && '@' !in name
    ensures RegistryOf(name) == RegistryOf(name + "@" + digest) == "docker.io"
  {
    NothingToCut(name, '@');
    DigestIsIrrelevant(name, digest);
  }

  lemma {:induction false} EveryReference(image: string) returns (front: string, rest: string)
    ensures '/' !in front && '@' !in front
    ensures image == front || image == front + "/" + rest || image == front + "@" + rest
  {
    if image == "" {
      front, rest := "", "";
    } else if image[0] == '/' || image[0] == '@' {
      front, rest := "", image[1..];
    } else {
      front, rest := EveryReference(image[1..]);
      front := [image[0]] + front;
      assert image == [image[0]] + image[1..];
    }
  }

  // ---------------------------------------------------------------- validation

  datatype ValidationError = ValidationError(field: string, message: string)

  const MAX_IMAGE_LENGTH := 512

  /** strings.EqualFold and the %q verb, both left abstract. */
  datatype Text = Text(fold: (string, string) -> bool, quoted: string -> string)

  predicate Whitelisted(registry: string, whitelist: seq<string>, t: Text) {
    exists k | 0 <= k < |whitelist| :: t.fold(registry, whitelist[k])
  }

  /** The image is refused for its registry. */
  predicate Denied(image: string, whitelist: seq<string>, t: Text) {
    image != "" && whitelist != [] && !Whitelisted(RegistryOf(image), whitelist, t)
  }

  /** Which references with a slash are refused: with a whitelist, those whose host, or Docker
      Hub for those without one, matches no entry. */
  lemma DeniedReference(host: string, rest: string, whitelist: seq<string>, t: Text)
    requires '/' !in host && '@' !in host
    ensures Denied(host + "/" + rest, whitelist, t) <==>
              && whitelist != []
              && forall e | e in whitelist :: !t.fold(if LooksLikeHost(host) then host else "docker.io", e)
  {
    RegistryOfReference(host, rest);
    var registry := RegistryOf(host + "/" + rest);
    if !Whitelisted(registry, whitelist, t) {
      forall e | e in whitelist ensures !t.fold(registry, e) {
        var k :| 0 <= k < |whitelist| && whitelist[k] == e;
      }
    } else {
      var k :| 0 <= k < |whitelist| && t.fold(registry, whitelist[k]);
      assert whitelist[k] in whitelist;
    }
  }

  method IsRegistryWhitelisted(registry: string, whitelist: seq<string>, t: Text) returns (found: bool)
    ensures found <==> Whitelisted(registry, whitelist, t)
  {
    for k := 0 to |whitelist|
      invariant forall j | 0 <= j < k :: !t.fold(registry, whitelist[j])
    {
      if t.fold(registry, whitelist[k]) {
        return true;
      }
    }
    return false;
  }

  /** The word the handler looks for. */
  const WHITELIST := "whitelist"

  /** An error the handler takes for a registry refusal. */
  predicate IsRefusal(e: ValidationError) {
    e.field == "image" && Occurs(WHITELIST, e.message)
  }

  lemma NeedsFirst(s: string, sub: string)
    requires sub != "" && sub[0] !in s
    ensures !Occurs(sub, s)
  {
    forall i: nat | i <= |s| ensures !OccursAt(sub, s, i) {
      assert i < |s| ==> s[i] in s;
      assert i + |sub| <= |s| ==> s[i..i + |sub|][0] == s[i];
    }
  }

  lemma EndsWith(front: string, sub: string)
    ensures Occurs(sub, front + sub)
  {
    assert OccursAt(sub, front + sub, |front|);
  }

  const MISSING := "image reference is required"
  const TOO_LONG := "image reference must not " + "exceed 512 characters"

  lemma OtherMessages()
    ensures !Occurs(WHITELIST, MISSING) && !Occurs(WHITELIST, TOO_LONG)
  {
    assert WHITELIST[0] == 'w';
    assert 'w' !in "image reference is required";
    NeedsFirst(MISSING, WHITELIST);
    assert 'w' !in "image reference must not ";
    assert 'w' !in "exceed 512 characters";
    NeedsFirst(TOO_LONG, WHITELIST);
  }

  function RefusalMessage(registry: string, t: Text): (m: string)
    ensures Occurs(WHITELIST, m)
  {
    var front := "registry " + t.quoted(registry) + " is not in the approved ";
    EndsWith(front, WHITELIST);
    front + WHITELIST
  }

  /** The checks on the image reference. */
  method ValidateImage(image: string, whitelist: seq<string>, t: Text) returns (errs: seq<ValidationError>)
    ensures errs == [] <==> 0 < |image| <= 512 && !Denied(image, whitelist, t)
    ensures (exists k | 0 <= k < |errs| :: IsRefusal(errs[k])) <==> Denied(image, whitelist, t)
  {
    errs := [];
    OtherMessages();
    if image == "" {
      errs := errs + [ValidationError("image", MISSING)];
    } else {
      if |image| > MAX_IMAGE_LENGTH {
        errs := errs + [ValidationError("image", TOO_LONG)];
      }
      if |whitelist| > 0 {
        var registry := ExtractRegistry(image);
        var allowed := IsRegistryWhitelisted(registry, whitelist, t);
        if !allowed {
          errs := errs + [ValidationError("image", RefusalMessage(registry, t))];
          assert IsRefusal(errs[|errs| - 1]);
        }
      }
    }
  }

  /** ValidateJobRequest; `others` are the errors of the checks on the other fields. */
  method ValidateJobRequest(image: string, whitelist: seq<string>, others: seq<ValidationError>, t: Text)
    returns (errs: seq<ValidationError>)
    ensures errs == [] <==> 0 < |image| <= 512 && !Denied(image, whitelist, t) && others == []
    ensures |others| <= |errs| && errs[|errs| - |others|..] == others
    ensures (exists k | 0 <= k < |errs| - |others| :: IsRefusal(errs[k])) <==> Denied(image, whitelist, t)
  {
    var own := ValidateImage(image, whitelist, t);
    errs := own + others;
    assert errs[|own|..] == others;
    assert forall k | 0 <= k < |own| :: errs[k] == own[k];
  }
}
