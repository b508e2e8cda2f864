/** Dependencies and their wire identity. */
module Dependencies {
  import opened Primitives
  import opened Wrappers
  import opened Text
  import opened TrustClasses
  import opened Fingerprints

  /** Wire-form identity of a dependency. A key already carrying its scheme is kept
      verbatim. */
  function FromSchemeKey(scheme: string, key: string): (id: string) {
    if StartsWith(key, scheme + "://") || StartsWith(key, scheme + ":") then key
    else scheme + "://" + key
  }

  datatype Dependency = Dependency(
    key: string,
    scheme: string,
    trustClass: TrustClass,
    fingerprint: Fingerprint,
    observedAt: Instant,
    producedBy: Option<string>,
    ttlSeconds: Option<nat>)
  {
    /** A volatile dependency must declare a lifetime. */
    predicate IsConsistent() {
      !(trustClass.Volatile? && ttlSeconds.None?)
    }

    function Id(): string {
      FromSchemeKey(scheme, key)
    }
  }

  /** An exact dependency on a file's content hash. */
  function ExactFile(path: string, contentHash: string, observedAt: Instant): Dependency {
    Dependency("file://" + path, "file", Exact, Fingerprint(ContentHash, contentHash), observedAt, None, None)
  }

  lemma PrefixOfJoin(scheme: string, key: string)
    ensures StartsWith(scheme + "://" + key, scheme + "://")
    ensures StartsWith(scheme + "://" + key, scheme + ":")
  {
    var s := scheme + "://" + key;
    assert s[..|scheme| + 3] == scheme + "://";
    assert s[..|scheme| + 1] == scheme + ":";
  }

  /** A key is its own identity exactly when it begins with its scheme and a colon; any other is
      the key in a URL of that scheme. */
  lemma IdentityMeaning(scheme: string, key: string)
    ensures FromSchemeKey(scheme, key) == key <==> scheme + ":" <= key
    ensures !(scheme + ":" <= key) ==> FromSchemeKey(scheme, key) == scheme + "://" + key
  {
    PrefixOfJoin(scheme, key);
    if scheme + "://" <= key {
      assert key[..|scheme| + 1] == scheme + ":";
    }
    assert |scheme + "://" + key| > |key|;
  }

  /** Deriving an identity twice is deriving it once, so a recorded key is its own
      identity and every lookup by either finds the same edge. */
  lemma FromSchemeKeyIdempotent(scheme: string, key: string)
    ensures FromSchemeKey(scheme, FromSchemeKey(scheme, key)) == FromSchemeKey(scheme, key)
  {
    PrefixOfJoin(scheme, key);
  }

  /** The two spellings of a file key, the edge's and the exclusion's, agree exactly when
      the path does not itself begin with `file:`. */
  lemma FileKeySpellings(path: string, hash: string, at: Instant)
    ensures ExactFile(path, hash, at).Id() == ExactFile(path, hash, at).key
    ensures FromSchemeKey("file", path) == ExactFile(path, hash, at).key <==> !StartsWith(path, "file:")
  {
    PrefixOfJoin("file", path);
    var key := "file://" + path;
    assert "file" + "://" == "file://" && "file" + ":" == "file:";
    if StartsWith(path, "file://") {
      assert path[..7] == "file://" && path[..5] == path[..7][..5] && "file://"[..5] == "file:";
    }
    assert |key| > |path|;
    assert "file" + "://" + path == key;
  }
}
