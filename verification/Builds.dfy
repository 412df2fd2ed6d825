/** The artifacts of a build, whatever keys and digests are. */
module Builds {

  datatype Artifact<K, D> = Artifact(key: K, size: nat, digest: D)

  function Volume<K, D>(artifacts: seq<Artifact<K, D>>): nat {
    if artifacts == [] then 0 else Volume(artifacts[..|artifacts| - 1]) + artifacts[|artifacts| - 1].size
  }

  lemma VolumeAppend<K, D>(artifacts: seq<Artifact<K, D>>, artifact: Artifact<K, D>)
    ensures Volume(artifacts + [artifact]) == Volume(artifacts) + artifact.size
  {
    assert (artifacts + [artifact])[..|artifacts|] == artifacts;
  }

  lemma {:induction false} VolumePrefix<K, D>(artifacts: seq<Artifact<K, D>>, k: nat)
    requires k <= |artifacts|
    ensures Volume(artifacts[..k]) <= Volume(artifacts)
    decreases |artifacts| - k
  {
    if k == |artifacts| {
      assert artifacts[..k] == artifacts;
    } else {
      VolumePrefix(artifacts, k + 1);
      assert artifacts[..k + 1] == artifacts[..k] + [artifacts[k]];
      VolumeAppend(artifacts[..k], artifacts[k]);
    }
  }
}
