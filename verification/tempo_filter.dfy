/** The filter-with-fallback at the heart of Tempo mode: index the audio
    features by track id, keep the candidates whose tempo reaches the
    threshold, fall back to the unfiltered pool when none does, and cut the
    result to the track limit. */
module TempoFilter {
  import opened Types

  /** Python's prefix slice `s[:n]` for a non-negative `n`. */
  function Take<T>(s: seq<T>, n: nat): (r: seq<T>)
    ensures |r| == if n <= |s| then n else |s|
    ensures r == s[..|r|]
  {
    if n <= |s| then s[..n] else s
  }

  // ----- the id -> feature index -----

  /** The index built from the feature list: null entries are skipped and a
      later entry for an id replaces an earlier one. */
  function FeatureMap(feats: seq<Option<Feature>>): (fmap: map<string, Feature>)
    ensures forall k :: k in fmap ==> fmap[k].id == k && Some(fmap[k]) in feats
  {
    if feats == [] then map[]
    else
      var m := FeatureMap(feats[..|feats| - 1]);
      match feats[|feats| - 1]
      case None => m
      case Some(f) => m[f.id := f]
  }

  /** Some non-null entry of `feats` carries id `k`. */
  ghost predicate HasEntryFor(feats: seq<Option<Feature>>, k: string)
  {
    exists i :: 0 <= i < |feats| && feats[i].Some? && feats[i].value.id == k
  }

  /** Entry `j` holds `f` for id `k`, and no later non-null entry has id `k`. */
  ghost predicate LastEntryFor(feats: seq<Option<Feature>>, k: string, j: int, f: Feature)
  {
    0 <= j < |feats| && feats[j] == Some(f) && f.id == k &&
    forall i :: j < i < |feats| ==> !(feats[i].Some? && feats[i].value.id == k)
  }

  /** An id is in the index exactly when a non-null entry carries it, and
      the index then holds the last such entry. */
  lemma {:induction false} FeatureMapSpec(feats: seq<Option<Feature>>, k: string)
    ensures k in FeatureMap(feats) <==> HasEntryFor(feats, k)
    ensures k in FeatureMap(feats) ==> exists j :: LastEntryFor(feats, k, j, FeatureMap(feats)[k])
  {
    if feats != [] {
      var n := |feats| - 1;
      var init := feats[..n];
      FeatureMapSpec(init, k);
      var m := FeatureMap(feats);
      if feats[n].Some? && feats[n].value.id == k {
        assert LastEntryFor(feats, k, n, m[k]);
      } else {
        assert m == FeatureMap(init) || m == FeatureMap(init)[feats[n].value.id := feats[n].value];
        assert k in m <==> k in FeatureMap(init);
        if HasEntryFor(feats, k) {
          var i :| 0 <= i < |feats| && feats[i].Some? && feats[i].value.id == k;
          assert init[i] == feats[i];
        }
        if HasEntryFor(init, k) {
          var i :| 0 <= i < |init| && init[i].Some? && init[i].value.id == k;
          assert feats[i] == init[i];
        }
        if k in m {
          var j :| LastEntryFor(init, k, j, FeatureMap(init)[k]);
          assert LastEntryFor(feats, k, j, m[k]);
        }
      }
    }
  }

  /** Builds the index entry by entry, as `generate_tempo` builds `fmap`. */
  method BuildFeatureMap(feats: seq<Option<Feature>>) returns (fmap: map<string, Feature>)
    ensures fmap == FeatureMap(feats)
  {
    fmap := map[];
    for i := 0 to |feats|
      invariant fmap == FeatureMap(feats[..i])
    {
      assert feats[..i + 1][..i] == feats[..i];
      match feats[i]
      case None =>
      case Some(f) => fmap := fmap[f.id := f];
    }
    assert feats[..|feats|] == feats;
  }

  // ----- the filter -----

  /** The tempo a feature entry is compared by: its tempo, or 0 when the
      entry has none. */
  function TempoOrZero(f: Feature): (bpm: real)
    ensures f.tempo.Some? ==> bpm == f.tempo.value
    ensures f.tempo.None? ==> bpm == 0.0
  {
    match f.tempo
    case Some(t) => t
    case None => 0.0
  }

  /** A candidate survives when the index has an entry for its id whose
      tempo reaches the threshold; an entry without a tempo passes exactly
      when the threshold is at most 0. */
  predicate Passes(t: Track, fmap: map<string, Feature>, minBpm: int): (ok: bool)
    ensures ok ==> t.id in fmap
    ensures t.id in fmap && fmap[t.id].tempo.Some? ==> (ok <==> fmap[t.id].tempo.value >= minBpm as real)
    ensures t.id in fmap && fmap[t.id].tempo.None? ==> (ok <==> minBpm <= 0)
  {
    t.id in fmap && TempoOrZero(fmap[t.id]) >= minBpm as real
  }

  /** The surviving candidates, in their original order. */
  function Passing(base: seq<Track>, fmap: map<string, Feature>, minBpm: int): (kept: seq<Track>)
    ensures |kept| <= |base|
    ensures forall t :: t in kept ==> t in base && Passes(t, fmap, minBpm)
  {
    if base == [] then []
    else
      var last := base[|base| - 1];
      Passing(base[..|base| - 1], fmap, minBpm) + (if Passes(last, fmap, minBpm) then [last] else [])
  }

  /** `a` is `b` with some elements removed, the rest kept in order. */
  ghost predicate SubseqOf<T>(a: seq<T>, b: seq<T>)
    decreases |b|
  {
    if a == [] then true
    else if b == [] then false
    else (a[|a| - 1] == b[|b| - 1] && SubseqOf(a[..|a| - 1], b[..|b| - 1]))
         || SubseqOf(a, b[..|b| - 1])
  }

  lemma {:induction false} SubseqMembers<T>(a: seq<T>, b: seq<T>)
    requires SubseqOf(a, b)
    ensures forall x :: x in a ==> x in b
    decreases |b|
  {
    if a != [] {
      var b' := b[..|b| - 1];
      if a[|a| - 1] == b[|b| - 1] && SubseqOf(a[..|a| - 1], b') {
        SubseqMembers(a[..|a| - 1], b');
        assert a == a[..|a| - 1] + [a[|a| - 1]];
      } else {
        SubseqMembers(a, b');
      }
      assert b == b' + [b[|b| - 1]];
    }
  }

  lemma {:induction false} SubseqPrefix<T>(a: seq<T>, b: seq<T>, n: nat)
    requires SubseqOf(a, b) && n <= |a|
    ensures SubseqOf(a[..n], b)
    decreases |b|
  {
    if n == |a| {
      assert a[..n] == a;
    } else if n > 0 {
      var b' := b[..|b| - 1];
      if a[|a| - 1] == b[|b| - 1] && SubseqOf(a[..|a| - 1], b') {
        SubseqPrefix(a[..|a| - 1], b', n);
        assert a[..|a| - 1][..n] == a[..n];
      } else {
        SubseqPrefix(a, b', n);
      }
    }
  }

  /** The survivors form an order-preserving subsequence of the pool. */
  lemma {:induction false} PassingIsSubseq(base: seq<Track>, fmap: map<string, Feature>, minBpm: int)
    ensures SubseqOf(Passing(base, fmap, minBpm), base)
  {
    if base != [] {
      var init := base[..|base| - 1];
      PassingIsSubseq(init, fmap, minBpm);
      var p := Passing(base, fmap, minBpm);
      if Passes(base[|base| - 1], fmap, minBpm) {
        assert p[..|p| - 1] == Passing(init, fmap, minBpm);
        assert p[|p| - 1] == base[|base| - 1];
      } else {
        assert p == Passing(init, fmap, minBpm);
      }
    }
  }

  /** A track is a survivor exactly when it is in the pool and passes. */
  lemma {:induction false} PassingMembers(base: seq<Track>, fmap: map<string, Feature>, minBpm: int, t: Track)
    ensures t in Passing(base, fmap, minBpm) <==> t in base && Passes(t, fmap, minBpm)
  {
    if base != [] {
      var init := base[..|base| - 1];
      PassingMembers(init, fmap, minBpm, t);
      assert base == init + [base[|base| - 1]];
    }
  }

  /** When every candidate passes, nothing is dropped. */
  lemma {:induction false} PassingAll(base: seq<Track>, fmap: map<string, Feature>, minBpm: int)
    requires forall i :: 0 <= i < |base| ==> Passes(base[i], fmap, minBpm)
    ensures Passing(base, fmap, minBpm) == base
  {
    if base != [] {
      var init := base[..|base| - 1];
      PassingAll(init, fmap, minBpm);
      assert base == init + [base[|base| - 1]];
    }
  }

  /** What Tempo mode returns for a candidate pool and its feature list. */
  function TempoPick(base: seq<Track>, feats: seq<Option<Feature>>, minBpm: int, trackLimit: nat): (r: seq<Track>)
    ensures |r| <= trackLimit && |r| <= |base|
    ensures forall t :: t in r ==> t in base
    ensures r == [] <==> base == [] || trackLimit == 0
  {
    var passing := Passing(base, FeatureMap(feats), minBpm);
    if passing == [] then Take(base, trackLimit) else Take(passing, trackLimit)
  }

  /** The filter loop of `generate_tempo`: index the features, keep the
      passing candidates in order, fall back to the unfiltered pool, cut to
      the limit. */
  method FilterByTempo(base: seq<Track>, feats: seq<Option<Feature>>, minBpm: int, trackLimit: nat)
    returns (tracks: seq<Track>)
    ensures tracks == TempoPick(base, feats, minBpm, trackLimit)
  {
    var fmap := BuildFeatureMap(feats);
    var result := [];
    for i := 0 to |base|
      invariant result == Passing(base[..i], fmap, minBpm)
    {
      assert base[..i + 1][..i] == base[..i];
      var t := base[i];
      if t.id in fmap && TempoOrZero(fmap[t.id]) >= minBpm as real {
        result := result + [t];
      }
    }
    assert base[..|base|] == base;
    if result == [] {
      return Take(base, trackLimit);
    }
    tracks := Take(result, trackLimit);
  }

  // ----- properties of the Tempo result -----

  /** The result keeps the pool's relevance order and adds nothing from
      outside it. */
  lemma TempoPickSubseq(base: seq<Track>, feats: seq<Option<Feature>>, minBpm: int, trackLimit: nat)
    ensures SubseqOf(TempoPick(base, feats, minBpm, trackLimit), base)
    ensures forall t :: t in TempoPick(base, feats, minBpm, trackLimit) ==> t in base
  {
    var r := TempoPick(base, feats, minBpm, trackLimit);
    var passing := Passing(base, FeatureMap(feats), minBpm);
    if passing == [] {
      SubseqRefl(base);
      SubseqPrefix(base, base, |r|);
    } else {
      PassingIsSubseq(base, FeatureMap(feats), minBpm);
      SubseqPrefix(passing, base, |r|);
    }
    SubseqMembers(r, base);
  }

  lemma {:induction false} SubseqRefl<T>(s: seq<T>)
    ensures SubseqOf(s, s)
    decreases |s|
  {
    if s != [] {
      SubseqRefl(s[..|s| - 1]);
    }
  }

  /** When some candidate passes, every returned track has a non-null
      feature entry for its id whose tempo (0 when absent) reaches the
      threshold, and the result is the first survivors. */
  lemma TempoPickFiltered(base: seq<Track>, feats: seq<Option<Feature>>, minBpm: int, trackLimit: nat)
    requires exists i :: 0 <= i < |base| && Passes(base[i], FeatureMap(feats), minBpm)
    ensures TempoPick(base, feats, minBpm, trackLimit)
            == Take(Passing(base, FeatureMap(feats), minBpm), trackLimit)
    ensures forall t :: t in TempoPick(base, feats, minBpm, trackLimit) ==>
              HasEntryFor(feats, t.id) && t.id in FeatureMap(feats) &&
              TempoOrZero(FeatureMap(feats)[t.id]) >= minBpm as real
  {
    var fmap := FeatureMap(feats);
    var i :| 0 <= i < |base| && Passes(base[i], fmap, minBpm);
    PassingMembers(base, fmap, minBpm, base[i]);
    var r := TempoPick(base, feats, minBpm, trackLimit);
    forall t | t in r
      ensures HasEntryFor(feats, t.id) && t.id in fmap && TempoOrZero(fmap[t.id]) >= minBpm as real
    {
      PassingMembers(base, fmap, minBpm, t);
      FeatureMapSpec(feats, t.id);
    }
  }

  /** When no candidate passes, the result is the first `trackLimit`
      candidates of the unfiltered pool. */
  lemma TempoPickFallback(base: seq<Track>, feats: seq<Option<Feature>>, minBpm: int, trackLimit: nat)
    requires forall i :: 0 <= i < |base| ==> !Passes(base[i], FeatureMap(feats), minBpm)
    ensures TempoPick(base, feats, minBpm, trackLimit) == Take(base, trackLimit)
  {
    var passing := Passing(base, FeatureMap(feats), minBpm);
    if passing != [] {
      PassingMembers(base, FeatureMap(feats), minBpm, passing[0]);
    }
  }

  /** When every candidate passes, the result is the pool cut to the limit,
      in its original order. */
  lemma TempoPickAllPass(base: seq<Track>, feats: seq<Option<Feature>>, minBpm: int, trackLimit: nat)
    requires forall i :: 0 <= i < |base| ==> Passes(base[i], FeatureMap(feats), minBpm)
    ensures TempoPick(base, feats, minBpm, trackLimit) == Take(base, trackLimit)
  {
    PassingAll(base, FeatureMap(feats), minBpm);
  }

  /** A candidate with no feature entry (its id absent from the list, or
      present only as null entries) is never kept by the filter. */
  lemma NoFeatureNeverKept(base: seq<Track>, feats: seq<Option<Feature>>, minBpm: int, t: Track)
    requires !HasEntryFor(feats, t.id)
    ensures t !in Passing(base, FeatureMap(feats), minBpm)
  {
    FeatureMapSpec(feats, t.id);
    PassingMembers(base, FeatureMap(feats), minBpm, t);
  }
}
