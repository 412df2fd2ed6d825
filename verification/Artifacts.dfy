/** Layers on their way into the blob store and back out of it. */
module Artifacts {
  import opened Wrappers
  import opened Copying
  import opened Builds

  type Key = string

  type Layer = Artifact<Key, string>

  /** What goes wrong outside: a step of the machine, and reads and writes that fail. */
  datatype Weather = Weather(fails: bool, cancelled: nat -> bool, writes: seq<WriteResponse>)

  predicate Calm(weather: Weather) {
    !weather.fails && Reliable(weather.writes)
  }

  ghost predicate NeverCancelled(weather: Weather) {
    forall k :: !weather.cancelled(k)
  }

  ghost predicate Kept(before: map<Key, Bytes>, after: map<Key, Bytes>) {
    forall k :: k in before ==> k in after && after[k] == before[k]
  }

  /** The blob is there and is what the record says. */
  ghost predicate Describes(artifact: Layer, blobs: map<Key, Bytes>, hash: Bytes -> string) {
    && artifact.key in blobs
    && artifact.size == |blobs[artifact.key]| && artifact.digest == hash(blobs[artifact.key])
  }

  lemma WholeCopied(copied: Copied, content: Bytes, maxBytes: int, hash: Bytes -> string, data: Bytes)
    requires Accounts(copied, content, maxBytes, hash) && copied.error.None? && data == content[..copied.size]
    ensures data == content && copied.digest == hash(content) && |content| <= maxBytes
  {
    assert content[..copied.size] == content;
  }

  /** A copy to a new file, as far as it gets. */
  method CopyOver(source: Source, maxBytes: int, weather: Weather, hash: Bytes -> string)
    returns (copied: Copied, data: Bytes)
    ensures Accounts(copied, source.content, maxBytes, hash) && data == source.content[..copied.size]
    ensures (&& Reliable(weather.writes) && NeverCancelled(weather) && Smooth(source)
             && |source.content| <= maxBytes) ==> copied.error.None?
  {
    var reader := new Reader(source);
    var target := new Sink(weather.writes);
    copied := CopyAndHash(target, reader, maxBytes, weather.cancelled, hash);
    data := target.data;
  }

  /** The whole source with its digest, or nothing. */
  method CopyWhole(source: Source, maxBytes: int, weather: Weather, hash: Bytes -> string)
    returns (r: Option<(Bytes, string)>)
    ensures r.Some? ==> |source.content| <= maxBytes && r.value == (source.content, hash(source.content))
    ensures (&& Calm(weather) && NeverCancelled(weather) && Smooth(source)
             && |source.content| <= maxBytes) ==> r.Some?
  {
    var copied, data := CopyOver(source, maxBytes, weather, hash);
    if copied.error.Some? || weather.fails {
      return None;
    }
    WholeCopied(copied, source.content, maxBytes, hash, data);
    return Some((data, copied.digest));
  }

  class BlobStore {
    var blobs: map<Key, Bytes>

    constructor ()
      ensures blobs == map[]
    {
      blobs := map[];
    }

    /** Local.Put: a complete copy, published by a link that fails on an existing key. */
    method Put(key: Key, source: Source, maxBytes: int, weather: Weather, hash: Bytes -> string)
      returns (r: Option<Layer>)
      modifies this
      ensures r.None? ==> blobs == old(blobs)
      ensures r.Some? ==>
                && key !in old(blobs) && blobs == old(blobs)[key := source.content]
                && |source.content| <= maxBytes
                && r.value == Artifact(key, |source.content|, hash(source.content))
      ensures (&& Calm(weather) && NeverCancelled(weather) && Smooth(source)
               && key !in old(blobs) && |source.content| <= maxBytes) ==> r.Some?
    {
      var copied := CopyWhole(source, maxBytes, weather, hash);
      if copied.None? || key in blobs {
        return None;
      }
      blobs := blobs[key := copied.value.0];
      return Some(Artifact(key, |copied.value.0|, copied.value.1));
    }

    /** materialize: the file on disk is the blob, and it is what the build recorded. */
    method Materialize(artifact: Layer, weather: Weather, hash: Bytes -> string) returns (r: Option<Bytes>)
      ensures r.Some? ==> Describes(artifact, blobs, hash) && r.value == blobs[artifact.key]
      ensures Calm(weather) && NeverCancelled(weather) && Describes(artifact, blobs, hash) ==> r.Some?
    {
      if weather.fails || artifact.key !in blobs {
        return None;
      }
      var content := blobs[artifact.key];
      if |content| != artifact.size || hash(content) != artifact.digest {
        return None;
      }
      var copied := CopyWhole(Source(content, []), artifact.size, weather, hash);
      if copied.None? || |copied.value.0| != artifact.size || copied.value.1 != artifact.digest {
        return None;
      }
      return Some(copied.value.0);
    }

    /** The storing loop of a build: `remaining` is the budget, and never negative. */
    method StoreLayers(keys: seq<Key>, layers: seq<Source>, maxBytes: nat, weather: nat -> Weather,
                       hash: Bytes -> string)
      returns (r: Option<seq<Layer>>)
      requires |keys| == |layers|
      modifies this
      ensures Kept(old(blobs), blobs)
      ensures r.Some? ==>
                && |r.value| == |layers| && Volume(r.value) <= maxBytes
                && forall i :: 0 <= i < |layers| ==>
                  && r.value[i].key == keys[i] && Describes(r.value[i], blobs, hash)
                  && blobs[keys[i]] == layers[i].content
    {
      var artifacts: seq<Layer> := [];
      var remaining := maxBytes;
      for k := 0 to |layers|
        invariant |artifacts| == k && Kept(old(blobs), blobs)
        invariant Volume(artifacts) + remaining == maxBytes && remaining >= 0
        invariant forall i :: 0 <= i < k ==>
          && artifacts[i].key == keys[i] && Describes(artifacts[i], blobs, hash)
          && blobs[keys[i]] == layers[i].content
      {
        var stored := Put(keys[k], layers[k], remaining, weather(k), hash);
        if stored.None? {
          return None;
        }
        VolumeAppend(artifacts, stored.value);
        remaining := remaining - stored.value.size;
        artifacts := artifacts + [stored.value];
      }
      return Some(artifacts);
    }

    /** The loop that fetches a build's layers before a run. It gets all of them as they
        were stored, refuses exactly the builds over the limit when nothing else fails,
        and refuses any whose blobs are not what was recorded. */
    method FetchLayers(artifacts: seq<Layer>, maxBytes: nat, weather: nat -> Weather, hash: Bytes -> string)
      returns (r: Option<seq<Bytes>>)
      ensures r.Some? ==>
                && |r.value| == |artifacts| && Volume(artifacts) <= maxBytes
                && forall i :: 0 <= i < |artifacts| ==>
                  Describes(artifacts[i], blobs, hash) && r.value[i] == blobs[artifacts[i].key]
      ensures (&& (forall k :: Calm(weather(k)) && NeverCancelled(weather(k)))
               && (forall i :: 0 <= i < |artifacts| ==> Describes(artifacts[i], blobs, hash))) ==>
                (r.Some? <==> Volume(artifacts) <= maxBytes)
    {
      var fetched: seq<Bytes> := [];
      var remaining := maxBytes;
      assert artifacts[..0] == [];
      for k := 0 to |artifacts|
        invariant |fetched| == k && remaining >= 0
        invariant Volume(artifacts[..k]) + remaining == maxBytes
        invariant forall i :: 0 <= i < k ==>
                    Describes(artifacts[i], blobs, hash) && fetched[i] == blobs[artifacts[i].key]
      {
        assert artifacts[..k + 1] == artifacts[..k] + [artifacts[k]];
        VolumeAppend(artifacts[..k], artifacts[k]);
        VolumePrefix(artifacts, k + 1);
        if artifacts[k].size > remaining {
          return None;
        }
        remaining := remaining - artifacts[k].size;
        var layer := Materialize(artifacts[k], weather(k), hash);
        if layer.None? {
          return None;
        }
        fetched := fetched + [layer.value];
      }
      assert artifacts[..|artifacts|] == artifacts;
      return Some(fetched);
    }

    /** A worker gets back the very layers the builder stored, whatever was stored in
        between. */
    method StoreThenFetch(keys: seq<Key>, layers: seq<Source>, maxBytes: nat, others: seq<Source>, otherKeys: seq<Key>,
                          weather: nat -> Weather, hash: Bytes -> string)
      returns (r: Option<seq<Bytes>>)
      requires |keys| == |layers| && |otherKeys| == |others|
      modifies this
      ensures r.Some? ==> |r.value| == |layers| && forall i :: 0 <= i < |layers| ==> r.value[i] == layers[i].content
    {
      var stored := StoreLayers(keys, layers, maxBytes, weather, hash);
      if stored.None? {
        return None;
      }
      ghost var before := blobs;
      var _ := StoreLayers(otherKeys, others, maxBytes, weather, hash);
      r := FetchLayers(stored.value, maxBytes, weather, hash);
      assert forall i :: 0 <= i < |layers| ==> keys[i] in before && blobs[keys[i]] == before[keys[i]];
    }
  }
}
