/**
 The patch of ReconcileExistingHardware as it crosses the network: a JSON merge patch
 (section 2 of RFC 7396) computed from what was read and applied to whatever is stored by then.
 */
module LabelPatch {
  import opened Lifecycle

  datatype Change = Put(value: string) | Remove

  /** client.MergeFrom on one map: the changes that turn `before` into `after`. */
  function Diff(before: map<string, string>, after: map<string, string>): (p: map<string, Change>)
  {
    map k | k in before.Keys + after.Keys && !(k in before && k in after && before[k] == after[k]) ::
      if k in after then Put(after[k]) else Remove
  }

  function ApplyDiff(m: map<string, string>, p: map<string, Change>): (r: map<string, string>)
  {
    map k | k in m.Keys + p.Keys && (k in p ==> p[k].Put?) :: if k in p then p[k].value else m[k]
  }

  /** Applied to what it was computed from, a patch gives back what was wanted. */
  lemma DiffRoundTrip(before: map<string, string>, after: map<string, string>)
    ensures ApplyDiff(before, Diff(before, after)) == after
  {
  }

  /** A patch of a whole object, in which both maps are merged key by key. */
  datatype Patch = Patch(labels: map<string, Change>, annotations: map<string, Change>)

  function DiffObjects(before: Hardware, after: Hardware): (p: Patch) {
    Patch(Diff(before.labels, after.labels), Diff(before.annotations, after.annotations))
  }

  function ApplyPatch(h: Hardware, p: Patch): (r: Hardware) {
    Hardware(ApplyDiff(h.labels, p.labels), ApplyDiff(h.annotations, p.annotations))
  }

  lemma PatchRoundTrip(before: Hardware, after: Hardware)
    ensures ApplyPatch(before, DiffObjects(before, after)) == after
  {
    DiffRoundTrip(before.labels, after.labels);
    DiffRoundTrip(before.annotations, after.annotations);
  }

  /** The patch ReconcileExistingHardware sends after reading `read`: the object with its labels merged in place. */
  function LabelDiff(read: Hardware, desired: map<string, string>): (p: Patch) {
    DiffObjects(read, read.(labels := Merged(read.labels, desired)))
  }

  /** What `after` keeps of `now` and takes from `desired`, when the patch was computed from `read`. */
  ghost predicate Survives(read: Hardware, now: Hardware, desired: map<string, string>, after: Hardware) {
    && after.annotations == now.annotations
    && (forall k | k !in desired :: (k in after.labels <==> k in now.labels) && Get(after.labels, k) == Get(now.labels, k))
    && (forall k | k in desired && Get(read.labels, k) != desired[k] :: Get(after.labels, k) == desired[k])
    && (forall k | k in desired && Get(read.labels, k) == desired[k] ::
          (k in after.labels <==> k in now.labels) && Get(after.labels, k) == Get(now.labels, k))
  }

  /**
   Between the read and the patch others may have changed the object to `now` in any way. All
   annotations, and the labels outside the desired set, come through as the others stored them; a
   desired label that had read differently gets its desired value; one that had read right is not
   touched.
   */
  lemma PatchUnderInterference(read: Hardware, now: Hardware, desired: map<string, string>)
    ensures Survives(read, now, desired, ApplyPatch(now, LabelDiff(read, desired)))
  {
    assert Diff(read.annotations, read.annotations) == map[];
    assert ApplyDiff(now.annotations, map[]) == now.annotations;
  }

  /** So a desired label reads right afterwards exactly when the patch carries it or it is right by then. */
  lemma DesiredAfterInterference(read: Hardware, now: Hardware, desired: map<string, string>, k: string)
    requires k in desired
    ensures Get(ApplyPatch(now, LabelDiff(read, desired)).labels, k) == desired[k] <==>
            Get(read.labels, k) != desired[k] || Get(now.labels, k) == desired[k]
  {
    PatchUnderInterference(read, now, desired);
  }

  /** A label that someone else changes between the read and the patch, and that stays wrong. */
  lemma LabelLeftWrong()
    ensures var read, now := Hardware(map["site" := "paris"], map[]), Hardware(map["site" := "lyon"], map[]);
            ApplyPatch(now, LabelDiff(read, map["site" := "paris"])) == now
  {
    var read, now := Hardware(map["site" := "paris"], map[]), Hardware(map["site" := "lyon"], map[]);
    var after := ApplyPatch(now, LabelDiff(read, map["site" := "paris"]));
    PatchUnderInterference(read, now, map["site" := "paris"]);
    assert after.labels == now.labels;
  }

  /**
   Without interference every desired label reads as desired afterwards, a label missing from the
   object counting as empty; everything else stays; and a second call finds nothing to patch.
   */
  lemma PatchWithoutInterference(h: Hardware, desired: map<string, string>)
    ensures var after := ApplyPatch(h, LabelDiff(h, desired));
            && after == h.(labels := Merged(h.labels, desired))
            && (forall k | k in desired :: Get(after.labels, k) == desired[k])
            && LabelDiff(after, desired) == Patch(map[], map[])
  {
    PatchRoundTrip(h, h.(labels := Merged(h.labels, desired)));
    var after := h.(labels := Merged(h.labels, desired));
    assert Merged(after.labels, desired) == after.labels;
  }
}
