// Folding the bundles of a Batch's outer and filed inner transactions into one pre/expect pair:
// scripts/merge_batch_bundle.py, and scripts/build_batch.py with its repairs.
module BatchBundle {
  import opened Bytes

  /** An object's image, in hex; "" in an expect map means the object is absent. */
  type Image = string

  type Images = map<Hash, Image>

  /** One entry's bundle, with the keys its metadata names in a CreatedNode. */
  datatype Bundle = Bundle(pre: Images, post: Images, created: set<Hash>)

  function Lookup(s: Images, k: Hash): Option<Image> { if k in s then Some(s[k]) else None }

  function ImageOf(s: Images, k: Hash): Image { if k in s then s[k] else "" }

  // ---- what the scripts compute ----

  /** First occurrence wins. */
  function MergedPre(bs: seq<Bundle>): Images {
    if |bs| == 0 then map[] else bs[|bs| - 1].pre + MergedPre(bs[..|bs| - 1])
  }

  /** Last occurrence wins. */
  function MergedExpect(bs: seq<Bundle>): Images {
    if |bs| == 0 then map[] else MergedExpect(bs[..|bs| - 1]) + bs[|bs| - 1].post
  }

  /** The first entry that created each key. */
  function CreatedAt(bs: seq<Bundle>): map<Hash, nat> {
    if |bs| == 0 then map[]
    else Mark(bs[|bs| - 1].created, |bs| - 1) + CreatedAt(bs[..|bs| - 1])
  }

  function Mark(keys: set<Hash>, j: nat): map<Hash, nat> {
    map k {:trigger k in keys} | k in keys :: j
  }

  /** Repair 1's test: created by entry j, and in the pre of no bundle up to j. */
  predicate MidBatch(bs: seq<Bundle>, k: Hash) {
    k in CreatedAt(bs) && forall i | 0 <= i < |bs| && i <= CreatedAt(bs)[k] :: k !in bs[i].pre
  }

  function Repaired(bs: seq<Bundle>): Images {
    map k | k in MergedPre(bs) && !MidBatch(bs, k) :: MergedPre(bs)[k]
  }

  /** Repair 1b: a key absent before the batch and deleted by its last toucher is no entry. */
  function NetExpect(bs: seq<Bundle>): Images {
    map k | k in MergedExpect(bs) && !(MergedExpect(bs)[k] == "" && k !in Repaired(bs)) :: MergedExpect(bs)[k]
  }

  /** Repair 2: what the unfiled inners read, unless the batch created it. */
  function Hydrated(bs: seq<Bundle>, synth: seq<Images>): Images {
    if |synth| == 0 then Repaired(bs)
    else (map k | k in synth[|synth| - 1] && k !in CreatedAt(bs) :: synth[|synth| - 1][k]) + Hydrated(bs, synth[..|synth| - 1])
  }

  /** Repair 3: keys no entry touched are pinned. */
  function Pinned(bs: seq<Bundle>, synth: seq<Images>): Images {
    Hydrated(bs, synth) + NetExpect(bs)
  }

  // ---- the scripts' loops ----

  /** `for k, v in more.items(): into.setdefault(k, v)`, and how many keys that added. */
  method SetDefaults(into: Images, more: Images) returns (r: Images, added: nat)
    ensures r == more + into && added == |r| - |into|
  {
    r, added := into, 0;
    var rest := more.Keys;
    while rest != {}
      invariant rest <= more.Keys
      invariant forall k :: k in r <==> k in into || (k in more && k !in rest)
      invariant forall k <- r :: r[k] == if k in into then into[k] else more[k]
      invariant added == |r| - |into|
      decreases rest
    {
      var k :| k in rest;
      if k !in r {
        r := r[k := more[k]];
        added := added + 1;
      }
      rest := rest - {k};
    }
  }

  /** `for k, v in more.items(): into[k] = v`. */
  method Overwrite(into: Images, more: Images) returns (r: Images)
    ensures r == into + more
  {
    r := into;
    var rest := more.Keys;
    while rest != {}
      invariant rest <= more.Keys
      invariant forall k :: k in r <==> k in into || (k in more && k !in rest)
      invariant forall k <- r :: r[k] == if k in more && k !in rest then more[k] else into[k]
      decreases rest
    {
      var k :| k in rest;
      r := r[k := more[k]];
      rest := rest - {k};
    }
  }

  /** merge_batch_bundle.py: the outer's bundle and then each inner's. */
  method Merge(bs: seq<Bundle>) returns (pre: Images, post: Images)
    requires |bs| > 0
    ensures pre == MergedPre(bs) && post == MergedExpect(bs)
  {
    pre, post := bs[0].pre, bs[0].post;
    assert bs[..1] == [bs[0]] && bs[..1][..0] == [];
    for i := 1 to |bs|
      invariant pre == MergedPre(bs[..i]) && post == MergedExpect(bs[..i])
    {
      assert bs[..i + 1][..i] == bs[..i];
      var added;
      pre, added := SetDefaults(pre, bs[i].pre);
      post := Overwrite(post, bs[i].post);
    }
    assert bs[..|bs|] == bs;
  }

  method FirstCreators(bs: seq<Bundle>) returns (createdAt: map<Hash, nat>)
    ensures createdAt == CreatedAt(bs)
  {
    createdAt := map[];
    for j := 0 to |bs|
      invariant createdAt == CreatedAt(bs[..j])
    {
      assert bs[..j + 1][..j] == bs[..j];
      createdAt := Mark(bs[j].created, j) + createdAt;
    }
    assert bs[..|bs|] == bs;
  }

  /** Repair 1's loop over the created keys. */
  method DropMidBatch(bs: seq<Bundle>, merged: Images, createdAt: map<Hash, nat>) returns (pre: Images)
    requires merged == MergedPre(bs) && createdAt == CreatedAt(bs)
    ensures pre == Repaired(bs)
  {
    pre := merged;
    var created := createdAt.Keys;
    while created != {}
      invariant created <= createdAt.Keys
      invariant forall k :: k in pre <==> k in merged && (k in created || !MidBatch(bs, k))
      invariant forall k <- pre :: pre[k] == merged[k]
      decreases created
    {
      var k :| k in created;
      if k in pre && forall i | 0 <= i < |bs| && i <= createdAt[k] :: k !in bs[i].pre {
        pre := pre - {k};
      }
      created := created - {k};
    }
  }

  /** Repair 2's loop over the unfiled inners. */
  method Hydrate(bs: seq<Bundle>, repaired: Images, createdAt: map<Hash, nat>, synth: seq<Images>)
    returns (pre: Images, added: nat)
    requires repaired == Repaired(bs) && createdAt == CreatedAt(bs)
    ensures pre == Hydrated(bs, synth) && added == |pre| - |repaired|
  {
    pre, added := repaired, 0;
    for i := 0 to |synth|
      invariant pre == Hydrated(bs, synth[..i]) && added == |pre| - |repaired|
    {
      assert synth[..i + 1][..i] == synth[..i];
      var more;
      pre, more := SetDefaults(pre, map k | k in synth[i] && k !in createdAt :: synth[i][k]);
      added := added + more;
    }
    assert synth[..|synth|] == synth;
  }

  /** build_batch.py: the merge and its four repairs. An unfiled inner whose fetch failed has no
      element in `synth`. */
  method Build(bs: seq<Bundle>, synth: seq<Images>) returns (pre: Images, post: Images, hydrated: nat, pins: nat)
    requires |bs| > 0
    ensures pre == Hydrated(bs, synth) && post == Pinned(bs, synth)
    ensures hydrated == |pre| - |Repaired(bs)| && pins == |post| - |NetExpect(bs)|
  {
    pre, post := Merge(bs);
    var createdAt := FirstCreators(bs);
    pre := DropMidBatch(bs, pre, createdAt);
    post := map k | k in post && !(post[k] == "" && k !in pre) :: post[k];
    pre, hydrated := Hydrate(bs, pre, createdAt, synth);
    post, pins := SetDefaults(post, pre);
  }

  // ---- the history the bundles come from ----

  /** Entry j's bundle tells the truth about the step from s to t: any pre it gives is the object
      as it was, every key modified or deleted has one, every key touched has its post-image. */
  ghost predicate Faithful(b: Bundle, s: Images, t: Images) {
    && (forall k <- b.pre :: Lookup(s, k) == Some(b.pre[k]))
    && (forall k <- b.post :: b.post[k] == ImageOf(t, k))
    && (forall k: Hash :: Lookup(s, k) != Lookup(t, k) ==> k in b.post && (k in s ==> k in b.pre))
    && (forall k: Hash :: k in b.created <==> k !in s && k in t)
  }

  /** `states[j]` is the ledger before entry j, the last one the ledger after the batch. */
  ghost predicate History(bs: seq<Bundle>, states: seq<Images>) {
    && |states| == |bs| + 1
    && (forall s <- states, k | k in s :: s[k] != "")
    && (forall j | 0 <= j < |bs| :: Faithful(bs[j], states[j], states[j + 1]))
  }

  /** The first entry from a on that changes k, given that k changes before c. */
  lemma {:induction false} FirstChange(states: seq<Images>, k: Hash, a: nat, c: nat) returns (i: nat)
    requires a < c < |states| && Lookup(states[a], k) != Lookup(states[c], k)
    ensures a <= i < c && Lookup(states[i], k) == Lookup(states[a], k) && Lookup(states[i], k) != Lookup(states[i + 1], k)
    decreases c - a
  {
    if Lookup(states[a], k) != Lookup(states[a + 1], k) { i := a; }
    else { i := FirstChange(states, k, a + 1, c); }
  }

  lemma {:induction false} PreFirst(bs: seq<Bundle>, k: Hash) returns (i: nat)
    requires k in MergedPre(bs)
    ensures i < |bs| && k in bs[i].pre && MergedPre(bs)[k] == bs[i].pre[k]
    ensures forall j | 0 <= j < i :: k !in bs[j].pre
  {
    var front := bs[..|bs| - 1];
    if k in MergedPre(front) {
      i := PreFirst(front, k);
    } else {
      i := |bs| - 1;
      forall j | 0 <= j < i ensures k !in bs[j].pre {
        if k in bs[j].pre { PreCovers(front, k, j); }
      }
    }
  }

  lemma {:induction false} PreCovers(bs: seq<Bundle>, k: Hash, j: nat)
    requires j < |bs| && k in bs[j].pre
    ensures k in MergedPre(bs)
  {
    if j < |bs| - 1 { PreCovers(bs[..|bs| - 1], k, j); }
  }

  lemma {:induction false} ExpectLast(bs: seq<Bundle>, k: Hash) returns (i: nat)
    requires k in MergedExpect(bs)
    ensures i < |bs| && k in bs[i].post && MergedExpect(bs)[k] == bs[i].post[k]
    ensures forall j | i < j < |bs| :: k !in bs[j].post
  {
    if k in bs[|bs| - 1].post { i := |bs| - 1; } else { i := ExpectLast(bs[..|bs| - 1], k); }
  }

  lemma {:induction false} ExpectCovers(bs: seq<Bundle>, k: Hash, j: nat)
    requires j < |bs| && k in bs[j].post
    ensures k in MergedExpect(bs)
  {
    if j < |bs| - 1 { ExpectCovers(bs[..|bs| - 1], k, j); }
  }

  lemma {:induction false} CreatedFirst(bs: seq<Bundle>, k: Hash)
    ensures k in CreatedAt(bs) ==> CreatedAt(bs)[k] < |bs| && k in bs[CreatedAt(bs)[k]].created
    ensures forall j | 0 <= j < |bs| && k in bs[j].created :: k in CreatedAt(bs) && CreatedAt(bs)[k] <= j
  {
    if |bs| > 0 { CreatedFirst(bs[..|bs| - 1], k); }
  }

  // ---- what the merge gives ----

  /** When the merge's rule holds: the first bundle to mention a key gives its image before the
      batch exactly when repair 1 would leave the key alone. */
  lemma FirstOccurrenceIsPreBatch(bs: seq<Bundle>, states: seq<Images>, k: Hash)
    requires History(bs, states) && k in MergedPre(bs)
    ensures Lookup(states[0], k) == Some(MergedPre(bs)[k]) <==> !MidBatch(bs, k)
    ensures k in states[0] <==> !MidBatch(bs, k)
  {
    var i := PreFirst(bs, k);
    CreatedFirst(bs, k);
    assert Faithful(bs[i], states[i], states[i + 1]);
    if Lookup(states[0], k) != Lookup(states[i], k) {
      var a := FirstChange(states, k, 0, i);
      assert Faithful(bs[a], states[a], states[a + 1]);
      assert k in bs[a].created;
    } else if MidBatch(bs, k) {
      var c := CreatedAt(bs)[k];
      assert Faithful(bs[c], states[c], states[c + 1]);
      var a := FirstChange(states, k, 0, c);
    }
  }

  /** A key the batch changes that existed before it is in the merged pre. */
  lemma ChangedIsInPre(bs: seq<Bundle>, states: seq<Images>, k: Hash, c: nat)
    requires History(bs, states) && k in states[0] && c <= |bs| && Lookup(states[0], k) != Lookup(states[c], k)
    ensures k in Repaired(bs)
  {
    var a := FirstChange(states, k, 0, c);
    assert Faithful(bs[a], states[a], states[a + 1]);
    PreCovers(bs, k, a);
    FirstOccurrenceIsPreBatch(bs, states, k);
  }

  /** The last bundle to mention a key gives its image after the batch. */
  lemma LastOccurrenceIsPostBatch(bs: seq<Bundle>, states: seq<Images>, k: Hash)
    requires History(bs, states) && k in MergedExpect(bs)
    ensures MergedExpect(bs)[k] == ImageOf(states[|bs|], k)
  {
    var i := ExpectLast(bs, k);
    assert Faithful(bs[i], states[i], states[i + 1]);
    if Lookup(states[i + 1], k) != Lookup(states[|bs|], k) {
      var a := FirstChange(states, k, i + 1, |bs|);
    }
  }

  lemma UntouchedStays(bs: seq<Bundle>, states: seq<Images>, k: Hash)
    requires History(bs, states) && k !in MergedExpect(bs)
    ensures Lookup(states[0], k) == Lookup(states[|bs|], k)
  {
    if Lookup(states[0], k) != Lookup(states[|bs|], k) {
      var a := FirstChange(states, k, 0, |bs|);
      assert Faithful(bs[a], states[a], states[a + 1]);
      ExpectCovers(bs, k, a);
    }
  }

  /** A synthesised read-set holds images from before the batch. */
  ghost predicate PreBatch(synth: seq<Images>, s: Images) {
    forall m <- synth, k | k in m :: Lookup(s, k) == Some(m[k])
  }

  lemma {:induction false} HydratedIsPreBatch(bs: seq<Bundle>, states: seq<Images>, synth: seq<Images>)
    requires History(bs, states) && PreBatch(synth, states[0])
    ensures forall k <- Hydrated(bs, synth) :: Lookup(states[0], k) == Some(Hydrated(bs, synth)[k])
    ensures forall k <- Repaired(bs) :: k in Hydrated(bs, synth)
  {
    if |synth| == 0 {
      forall k <- Repaired(bs) ensures Lookup(states[0], k) == Some(Repaired(bs)[k]) {
        FirstOccurrenceIsPreBatch(bs, states, k);
      }
    } else {
      assert synth[|synth| - 1] in synth;
      HydratedIsPreBatch(bs, states, synth[..|synth| - 1]);
    }
  }

  /** The built bundle is the batch's net effect: every pre value is the object before the whole
      batch and every post value the object after it; what the batch changes is in post, and in
      pre if it existed; what it both made and unmade is in neither. */
  lemma BuiltBundleIsNetEffect(bs: seq<Bundle>, states: seq<Images>, synth: seq<Images>, k: Hash)
    requires History(bs, states) && PreBatch(synth, states[0])
    ensures var pre, post := Hydrated(bs, synth), Pinned(bs, synth);
            var before, after := states[0], states[|bs|];
            && (k in pre ==> Lookup(before, k) == Some(pre[k]))
            && (k in post ==> post[k] == ImageOf(after, k))
            && (Lookup(before, k) != Lookup(after, k) ==> k in post && (k in before ==> k in pre))
            && (k !in before && k !in after ==> k !in pre && k !in post)
  {
    var pre, post := Hydrated(bs, synth), Pinned(bs, synth);
    var before, after := states[0], states[|bs|];
    HydratedIsPreBatch(bs, states, synth);
    if k in MergedExpect(bs) {
      LastOccurrenceIsPostBatch(bs, states, k);
      if k in before && Lookup(before, k) != Lookup(after, k) { ChangedIsInPre(bs, states, k, |bs|); }
      assert before in states && after in states;
    } else {
      UntouchedStays(bs, states, k);
    }
  }

  /** The plain merge can seat a mid-batch image in pre: the outer creates an object, an inner
      changes it, and the merged pre says it stood before the batch. */
  lemma MergeSeatsMidBatchImage(k: Hash)
    ensures var bs := [Bundle(map[], map[k := "01"], {k}), Bundle(map[k := "01"], map[k := "02"], {})];
            var states: seq<Images> := [map[], map[k := "01"], map[k := "02"]];
            History(bs, states) && k in MergedPre(bs) && k !in states[0] && k !in Repaired(bs)
  {
    var bs := [Bundle(map[], map[k := "01"], {k}), Bundle(map[k := "01"], map[k := "02"], {})];
    var states: seq<Images> := [map[], map[k := "01"], map[k := "02"]];
    assert Faithful(bs[0], states[0], states[1]) && Faithful(bs[1], states[1], states[2]);
    PreCovers(bs, k, 1);
    FirstOccurrenceIsPreBatch(bs, states, k);
  }

  // ---- what each repair adds ----

  /** A synthesised read reaches the pre images, as the first inner to read it has it, unless the batch
      created the key or an entry's bundle has it already; and nothing else does. */
  lemma {:induction false} HydratedReads(bs: seq<Bundle>, synth: seq<Images>, k: Hash)
    ensures k in Repaired(bs) ==> Lookup(Hydrated(bs, synth), k) == Some(Repaired(bs)[k])
    ensures k !in Repaired(bs) && k in CreatedAt(bs) ==> k !in Hydrated(bs, synth)
    ensures k !in Repaired(bs) && (forall i | 0 <= i < |synth| :: k !in synth[i]) ==> k !in Hydrated(bs, synth)
    ensures k !in Repaired(bs) && k !in CreatedAt(bs) ==>
              forall i | 0 <= i < |synth| && k in synth[i] && (forall j | 0 <= j < i :: k !in synth[j]) ::
                Lookup(Hydrated(bs, synth), k) == Some(synth[i][k])
  {
    if |synth| > 0 {
      HydratedReads(bs, synth[..|synth| - 1], k);
      hide Repaired, CreatedAt;
    }
  }

  /** A pre image no entry touched stands in the post images too; what an entry touched stands as it left it. */
  lemma PinnedReads(bs: seq<Bundle>, synth: seq<Images>, k: Hash)
    ensures Lookup(Pinned(bs, synth), k)
            == if k in NetExpect(bs) then Some(NetExpect(bs)[k]) else Lookup(Hydrated(bs, synth), k)
    ensures k in MergedExpect(bs) && k !in NetExpect(bs) <==>
              k in MergedExpect(bs) && MergedExpect(bs)[k] == "" && k !in Repaired(bs)
  {
    hide Hydrated, MergedExpect, Repaired;
  }
}
