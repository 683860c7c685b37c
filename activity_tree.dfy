/**
 * Bounded descendant resolution over the `activity` table
 * (`CompanyRepository._get_descendant_activity_ids`).
 *
 * The source is a recursive CTE: the base rows are the activities whose
 * `parent_id` is the root, at level 1; a row at level `l` yields its children
 * at level `l + 1` only while `l < depth`. The model computes the same rows
 * level by level and proves them equal to an independent definition: the
 * activities whose ancestor exactly `k` parent links up is the root, for
 * `1 <= k <= max(1, depth)`.
 */
module ActivityTree {
  import opened Wrappers
  import opened Schema

  /** Activities whose parent is one of `parents` (one join step of the CTE). */
  function Children(acts: map<int, ActivityRow>, parents: set<int>): (r: set<int>)
    ensures r <= acts.Keys
  {
    set a | a in acts && acts[a].parentId.Some? && acts[a].parentId.value in parents
  }

  /** The CTE rows at level `k`: level 1 is the base query, level k+1 joins level k. */
  function Level(acts: map<int, ActivityRow>, root: int, k: nat): (r: set<int>)
    requires k >= 1
    ensures r <= acts.Keys
    decreases k
  {
    if k == 1 then Children(acts, {root}) else Children(acts, Level(acts, root, k - 1))
  }

  /** The union of levels 1..n. */
  function LevelsUpTo(acts: map<int, ActivityRow>, root: int, n: nat): (r: set<int>)
    requires n >= 1
    ensures r <= acts.Keys
    decreases n
  {
    if n == 1 then Level(acts, root, 1) else LevelsUpTo(acts, root, n - 1) + Level(acts, root, n)
  }

  /**
   * The deepest level the CTE produces: the base rows (level 1) are always
   * produced, and the recursive step stops once `level == depth`.
   */
  function DeepestLevel(depth: int): (n: nat)
    ensures n >= 1
    ensures depth >= 1 ==> n == depth
  {
    if depth < 1 then 1 else depth
  }

  /**
   * The ids the recursive query returns, as a set; every one names an
   * existing activity, on any data, cyclic or not.
   */
  function Descendants(acts: map<int, ActivityRow>, root: int, depth: int): (r: set<int>)
    ensures r <= acts.Keys
  {
    LevelsUpTo(acts, root, DeepestLevel(depth))
  }

  /** The activity `k` parent links above `a` (`a` itself for k = 0), if the chain exists. */
  function AncestorAt(acts: map<int, ActivityRow>, a: int, k: nat): (r: Option<int>)
    decreases k
  {
    if k == 0 then Some(a)
    else if a in acts && acts[a].parentId.Some? then AncestorAt(acts, acts[a].parentId.value, k - 1)
    else None
  }

  /** No activity is its own ancestor: the data invariant the writers keep. */
  ghost predicate Acyclic(acts: map<int, ActivityRow>)
  {
    forall a, k: nat {:trigger AncestorAt(acts, a, k)} :: k >= 1 ==> AncestorAt(acts, a, k) != Some(a)
  }

  /** Every `parent_id` refers to an existing activity (the foreign key). */
  ghost predicate ParentsResolve(acts: map<int, ActivityRow>)
  {
    forall a :: a in acts && acts[a].parentId.Some? ==> acts[a].parentId.value in acts
  }

  /** Level k holds exactly the activities whose k-th ancestor is the root. */
  lemma {:induction false} LevelIsAncestorAt(acts: map<int, ActivityRow>, root: int, k: nat, a: int)
    requires k >= 1
    ensures a in Level(acts, root, k) <==> AncestorAt(acts, a, k) == Some(root)
    decreases k
  {
    if k > 1 && a in acts && acts[a].parentId.Some? {
      LevelIsAncestorAt(acts, root, k - 1, acts[a].parentId.value);
    }
  }

  lemma {:induction false} LevelsUpToIsAncestorWithin(acts: map<int, ActivityRow>, root: int, n: nat, a: int)
    requires n >= 1
    ensures a in LevelsUpTo(acts, root, n) <==> exists k: nat :: 1 <= k <= n && AncestorAt(acts, a, k) == Some(root)
    decreases n
  {
    LevelIsAncestorAt(acts, root, n, a);
    if n > 1 {
      LevelsUpToIsAncestorWithin(acts, root, n - 1, a);
    } else if AncestorAt(acts, a, 1) == Some(root) {
      assert a in LevelsUpTo(acts, root, n);
    }
  }

  /**
   * The query returns exactly the activities 1..max(1, depth) parent links
   * below the root.
   */
  lemma DescendantsAreAncestorWithin(acts: map<int, ActivityRow>, root: int, depth: int, a: int)
    ensures a in Descendants(acts, root, depth) <==>
              exists k: nat :: 1 <= k <= DeepestLevel(depth) && AncestorAt(acts, a, k) == Some(root)
  {
    LevelsUpToIsAncestorWithin(acts, root, DeepestLevel(depth), a);
  }

  /** Descendants, not self-and-descendants: the root is excluded on a forest. */
  lemma RootExcluded(acts: map<int, ActivityRow>, root: int, depth: int)
    requires Acyclic(acts)
    ensures root !in Descendants(acts, root, depth)
  {
    DescendantsAreAncestorWithin(acts, root, depth, root);
  }

  /** A leaf root has no descendants at any depth. */
  lemma {:induction false} LeafHasNoDescendants(acts: map<int, ActivityRow>, root: int, depth: int)
    requires Children(acts, {root}) == {}
    ensures Descendants(acts, root, depth) == {}
  {
    forall a | a in Descendants(acts, root, depth) ensures false {
      DescendantsAreAncestorWithin(acts, root, depth, a);
      var k: nat :| 1 <= k <= DeepestLevel(depth) && AncestorAt(acts, a, k) == Some(root);
      LevelIsAncestorAt(acts, root, k, a);
      LevelOfLeafEmpty(acts, root, k);
    }
  }

  lemma {:induction false} LevelOfLeafEmpty(acts: map<int, ActivityRow>, root: int, k: nat)
    requires k >= 1
    requires Children(acts, {root}) == {}
    ensures Level(acts, root, k) == {}
    decreases k
  {
    if k > 1 {
      LevelOfLeafEmpty(acts, root, k - 1);
    }
  }

  /** A root id that is not an activity has no children, hence no descendants. */
  lemma MissingRootHasNoDescendants(acts: map<int, ActivityRow>, root: int, depth: int)
    requires ParentsResolve(acts)
    requires root !in acts
    ensures Descendants(acts, root, depth) == {}
  {
    assert forall a :: a in acts && acts[a].parentId.Some? ==> acts[a].parentId.value != root;
    LeafHasNoDescendants(acts, root, depth);
  }

  /**
   * Levels beyond `depth` never enter the result: an activity whose only
   * chain to the root is longer than `depth` links is not returned.
   */
  lemma TooDeepExcluded(acts: map<int, ActivityRow>, root: int, depth: int, a: int)
    requires forall k: nat :: 1 <= k <= DeepestLevel(depth) ==> AncestorAt(acts, a, k) != Some(root)
    ensures a !in Descendants(acts, root, depth)
  {
    DescendantsAreAncestorWithin(acts, root, depth, a);
  }
}
