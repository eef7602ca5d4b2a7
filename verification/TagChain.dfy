/** Following an annotated tag to its commit (`require_tag` in scripts/publish-native-release.py). */
module TagChain {
  import opened Text

  datatype Kind = Commit | Tag | OtherKind

  /** What a reference or an annotated tag points to. */
  datatype Target = Target(kind: Kind, sha: string)

  const LIMIT := 8

  /** After exactly `n` annotated tags the chain is at a commit; `None` when it breaks off before. */
  function Peel(tags: map<string, Target>, t: Target, n: nat): Option<string>
    decreases n
  {
    if t.kind == Commit then (if n == 0 then Some(t.sha) else None)
    else if n == 0 || t.kind != Tag || !Hex(t.sha, 40) || t.sha !in tags then None
    else Peel(tags, tags[t.sha], n - 1)
  }

  /** The chain reaches commit `sha` over at most eight annotated tags. */
  ghost predicate Resolves(tags: map<string, Target>, t: Target, sha: string) {
    exists n: nat :: n <= 8 && Peel(tags, t, n) == Some(sha)
  }

  /** How far a chain is from its commit does not depend on how it is asked: a chain that repeats never ends. */
  lemma {:induction false} PeelUnique(tags: map<string, Target>, t: Target, n: nat, m: nat)
    requires Peel(tags, t, n).Some? && Peel(tags, t, m).Some?
    ensures n == m
    decreases n
  {
    if t.kind != Commit {
      PeelUnique(tags, tags[t.sha], n - 1, m - 1);
    }
  }

  /** The targets met along the way. */
  function Along(tags: map<string, Target>, t: Target, k: nat): Option<Target>
    decreases k
  {
    if k == 0 then Some(t)
    else if t.kind != Tag || !Hex(t.sha, 40) || t.sha !in tags then None
    else Along(tags, tags[t.sha], k - 1)
  }

  lemma {:induction false} PeelAlong(tags: map<string, Target>, t: Target, k: nat, n: nat)
    requires Along(tags, t, k).Some? && Peel(tags, t, n).Some?
    ensures k <= n && Peel(tags, Along(tags, t, k).value, n - k) == Peel(tags, t, n)
    decreases k
  {
    if k > 0 {
      PeelAlong(tags, tags[t.sha], k - 1, n - 1);
    }
  }

  lemma {:induction false} AlongNext(tags: map<string, Target>, t: Target, k: nat)
    requires Along(tags, t, k).Some? && Along(tags, t, k).value.kind == Tag
    requires Hex(Along(tags, t, k).value.sha, 40) && Along(tags, t, k).value.sha in tags
    ensures Along(tags, t, k + 1) == Some(tags[Along(tags, t, k).value.sha])
    decreases k
  {
    if k > 0 {
      AlongNext(tags, tags[t.sha], k - 1);
    }
  }

  /** Two visits to the same tag: the chain never reaches a commit. */
  lemma RepeatNeverResolves(tags: map<string, Target>, t: Target, i: nat, j: nat, n: nat)
    requires i < j && Along(tags, t, i).Some? && Along(tags, t, j).Some?
    requires Along(tags, t, i).value.kind == Tag == Along(tags, t, j).value.kind
    requires Along(tags, t, i).value.sha == Along(tags, t, j).value.sha
    ensures Peel(tags, t, n) == None
  {
    if Peel(tags, t, n).Some? {
      PeelAlong(tags, t, i, n);
      PeelAlong(tags, t, j, n);
      PeelUnique(tags, Along(tags, t, i).value, n - i, n - j);
    }
  }

  lemma NotResolved(tags: map<string, Target>, ref: Target, sha: string, met: seq<string>, current: Target)
    requires Along(tags, ref, |met|) == Some(current) && current.kind != Commit
    requires forall i :: 0 <= i < |met| ==> Along(tags, ref, i) == Some(Target(Tag, met[i]))
    requires || current.kind != Tag || !Hex(current.sha, 40)
             || current.sha in met || |met| >= LIMIT || current.sha !in tags
    ensures !Resolves(tags, ref, sha)
  {
    if n: nat :| n <= LIMIT && Peel(tags, ref, n) == Some(sha) {
      PeelAlong(tags, ref, |met|, n);
      if current.kind == Tag && current.sha in met {
        var i :| 0 <= i < |met| && met[i] == current.sha;
        RepeatNeverResolves(tags, ref, i, |met|, n);
      }
    }
  }

  lemma {:induction false} PeelReached(tags: map<string, Target>, t: Target, k: nat, end: Target)
    requires Along(tags, t, k) == Some(end) && end.kind == Commit
    ensures Peel(tags, t, k) == Some(end.sha)
    decreases k
  {
    if k > 0 {
      PeelReached(tags, tags[t.sha], k - 1, end);
    }
  }

  lemma CommitReached(tags: map<string, Target>, ref: Target, sha: string, k: nat, current: Target)
    requires k <= LIMIT && Along(tags, ref, k) == Some(current) && current.kind == Commit
    ensures Resolves(tags, ref, sha) <==> current.sha == sha
  {
    if n: nat :| n <= LIMIT && Peel(tags, ref, n) == Some(sha) {
      PeelAlong(tags, ref, k, n);
    }
    if current.sha == sha {
      assert Peel(tags, ref, k) == Some(sha) by { PeelReached(tags, ref, k, current); }
    }
  }

  /** What the loop works on: the target it is at and the tags it has seen. */
  datatype Walk = Walk(current: Target, seen: set<string>)

  /** The loop after `n` turns without its test for a repeated tag; `None` when it has stopped or refused by then. */
  function Unchecked(tags: map<string, Target>, w: Walk, n: nat): Option<Walk>
    decreases n
  {
    if n == 0 then Some(w)
    else if w.current.kind != Tag || !Hex(w.current.sha, 40) || |w.seen| >= LIMIT || w.current.sha !in tags then None
    else Unchecked(tags, Walk(tags[w.current.sha], w.seen + {w.current.sha}), n - 1)
  }

  /** Fewer than eight tags, each of which points to one of them. */
  predicate Ring(tags: map<string, Target>, ring: set<string>) {
    |ring| < 8 && forall a :: a in ring ==> a in tags && Hex(a, 40) && tags[a].kind == Tag && tags[a].sha in ring
  }

  lemma FewSeen(seen: set<string>, ring: set<string>)
    requires seen <= ring
    ensures |seen| <= |ring|
  {
    assert ring == seen + (ring - seen);
  }

  /**
   * The bound counts the different tags that were seen, so it is the test for a repeated tag that ends the loop: on a
   * ring of fewer than eight tags the loop without that test would go on forever.
   */
  lemma {:induction false} RingNeedsTest(tags: map<string, Target>, ring: set<string>, w: Walk, n: nat)
    requires Ring(tags, ring) && w.current.kind == Tag && w.current.sha in ring && w.seen <= ring
    ensures Unchecked(tags, w, n).Some?
    decreases n
  {
    if n > 0 {
      FewSeen(w.seen, ring);
      RingNeedsTest(tags, ring, Walk(tags[w.current.sha], w.seen + {w.current.sha}), n - 1);
    }
  }

  /** The loop of `require_tag`. It gives up at a repeated tag, and at the ninth. */
  method Follow(tags: map<string, Target>, ref: Target, sha: string) returns (ok: bool)
    ensures ok <==> Resolves(tags, ref, sha)
  {
    var current := ref;
    var seen: set<string> := {};
    ghost var met: seq<string> := [];
    while current.kind != Commit
      invariant |seen| == |met| <= LIMIT
      invariant Along(tags, ref, |met|) == Some(current)
      invariant forall i :: 0 <= i < |met| ==> Along(tags, ref, i) == Some(Target(Tag, met[i]))
      invariant seen == set s | s in met
      decreases LIMIT - |met|
    {
      if current.kind != Tag || !Hex(current.sha, 40)
         || current.sha in seen || |seen| >= LIMIT || current.sha !in tags {
        NotResolved(tags, ref, sha, met, current);
        return false;
      }
      AlongNext(tags, ref, |met|);
      seen := seen + {current.sha};
      met := met + [current.sha];
      current := tags[current.sha];
    }
    CommitReached(tags, ref, sha, |met|, current);
    return current.sha == sha;
  }
}
