/** The orphan audit's worklist over module declarations and includes: when it
    ends, and what it has reached when it does. */
module OrphanAudit {
  import opened Options

  type File = nat

  /** A crate as the audit sees it: per file, the candidate paths of each `mod`
      declaration and the target of each literal `include!`, in source order. */
  datatype Crate = Crate(
    roots: seq<File>,
    existing: set<File>,
    rust: set<File>,
    mods: File -> seq<seq<File>>,
    includes: File -> seq<File>)

  datatype State = State(reachable: set<File>, queue: seq<File>, unresolved: seq<(File, nat)>)

  predicate FirstFile(c: Crate, candidates: seq<File>, i: nat) {
    i < |candidates| && candidates[i] in c.existing && forall j :: 0 <= j < i ==> candidates[j] !in c.existing
  }

  /** The first candidate that is a file. */
  function Resolve(c: Crate, candidates: seq<File>): (r: Option<File>)
    ensures r.Some? ==> r.value in c.existing && r.value in candidates
    ensures forall i: nat :: FirstFile(c, candidates, i) ==> r == Some(candidates[i])
    ensures r.None? <==> forall i :: 0 <= i < |candidates| ==> candidates[i] !in c.existing
  {
    if candidates == [] then None
    else if candidates[0] in c.existing then Some(candidates[0])
    else
      assert forall i: nat :: i > 0 && FirstFile(c, candidates, i) ==> FirstFile(c, candidates[1..], i - 1);
      Resolve(c, candidates[1..])
  }

  function AddMod(c: Crate, f: File, k: nat, st: State): State
    requires k < |c.mods(f)|
  {
    match Resolve(c, c.mods(f)[k])
    case None => st.(unresolved := st.unresolved + [(f, k)])
    case Some(g) =>
      if g in st.reachable then st
      else st.(reachable := st.reachable + {g}, queue := st.queue + [g])
  }

  function AddMods(c: Crate, f: File, n: nat, st: State): State
    requires n <= |c.mods(f)|
  {
    if n == 0 then st else AddMod(c, f, n - 1, AddMods(c, f, n - 1, st))
  }

  function AddInclude(c: Crate, t: File, st: State): State {
    if t !in c.existing then st
    else st.(reachable := st.reachable + {t},
             queue := if t in c.rust && t !in st.queue then st.queue + [t] else st.queue)
  }

  function AddIncludes(c: Crate, f: File, n: nat, st: State): State
    requires n <= |c.includes(f)|
  {
    if n == 0 then st else AddInclude(c, c.includes(f)[n - 1], AddIncludes(c, f, n - 1, st))
  }

  /** One turn of the worklist: the last queued file is scanned. */
  function Turn(c: Crate, st: State): State
    requires st.queue != []
  {
    var n := |st.queue| - 1;
    var f := st.queue[n];
    AddIncludes(c, f, |c.includes(f)|, AddMods(c, f, |c.mods(f)|, st.(queue := st.queue[..n])))
  }

  function Begin(c: Crate): State {
    State((set f | f in c.roots), c.roots, [])
  }

  /** The state after `n` turns, or the final one. */
  function After(c: Crate, n: nat): State {
    if n == 0 then Begin(c)
    else
      var st := After(c, n - 1);
      if st.queue == [] then st else Turn(c, st)
  }

  // ----- Edges -----

  ghost predicate ModEdge(c: Crate, f: File, g: File) {
    exists k :: 0 <= k < |c.mods(f)| && Resolve(c, c.mods(f)[k]) == Some(g)
  }

  ghost predicate IncludeEdge(c: Crate, f: File, g: File) {
    g in c.includes(f) && g in c.existing
  }

  ghost predicate HasEdge(c: Crate, f: File, g: File) {
    ModEdge(c, f, g) || IncludeEdge(c, f, g)
  }

  /** Rust files that an `include!` puts back on the queue. */
  ghost predicate Requeues(c: Crate, f: File, g: File) {
    IncludeEdge(c, f, g) && g in c.rust
  }

  // ----- The effect of one turn -----

  /** What scanning `f` adds to a state. */
  ghost predicate Scanned(c: Crate, f: File, st: State, st': State) {
    && st.reachable <= st'.reachable
    && (forall g :: g in st'.reachable ==> g in st.reachable || HasEdge(c, f, g))
    && (forall g :: HasEdge(c, f, g) ==> g in st'.reachable)
    && (forall g :: g in st.queue ==> g in st'.queue)
    && (forall g :: g in st'.queue ==> g in st.queue || ModEdge(c, f, g) || Requeues(c, f, g))
    && (forall g :: Requeues(c, f, g) ==> g in st'.queue)
    && (forall g :: ModEdge(c, f, g) && g !in st.reachable ==> g in st'.queue)
  }

  lemma {:induction false} AddModsEffect(c: Crate, f: File, n: nat, st: State)
    requires n <= |c.mods(f)|
    ensures var r := AddMods(c, f, n, st);
            && st.reachable <= r.reachable
            && (forall g :: g in r.reachable ==> g in st.reachable || ModEdge(c, f, g))
            && (forall k :: 0 <= k < n && Resolve(c, c.mods(f)[k]).Some? ==> Resolve(c, c.mods(f)[k]).value in r.reachable)
            && (forall g :: g in st.queue ==> g in r.queue)
            && (forall g :: g in r.queue ==> g in st.queue || (g in r.reachable && g !in st.reachable))
            && (forall g :: g in r.reachable && g !in st.reachable ==> g in r.queue)
  {
    if n > 0 {
      AddModsEffect(c, f, n - 1, st);
      var mid := AddMods(c, f, n - 1, st);
      match Resolve(c, c.mods(f)[n - 1])
      case None =>
      case Some(g) =>
        assert ModEdge(c, f, g);
    }
  }

  lemma {:induction false} AddIncludesEffect(c: Crate, f: File, n: nat, st: State)
    requires n <= |c.includes(f)|
    ensures var r := AddIncludes(c, f, n, st);
            && st.reachable <= r.reachable
            && (forall g :: g in r.reachable ==> g in st.reachable || IncludeEdge(c, f, g))
            && (forall k :: 0 <= k < n && c.includes(f)[k] in c.existing ==>
                  c.includes(f)[k] in r.reachable && (c.includes(f)[k] in c.rust ==> c.includes(f)[k] in r.queue))
            && (forall g :: g in st.queue ==> g in r.queue)
            && (forall g :: g in r.queue ==> g in st.queue || Requeues(c, f, g))
  {
    if n > 0 {
      AddIncludesEffect(c, f, n - 1, st);
    }
  }

  lemma TurnEffect(c: Crate, st: State)
    requires st.queue != []
    ensures var n := |st.queue| - 1;
            Scanned(c, st.queue[n], st.(queue := st.queue[..n]), Turn(c, st))
  {
    var n := |st.queue| - 1;
    var f := st.queue[n];
    var st0 := st.(queue := st.queue[..n]);
    AddModsEffect(c, f, |c.mods(f)|, st0);
    var mid := AddMods(c, f, |c.mods(f)|, st0);
    AddIncludesEffect(c, f, |c.includes(f)|, mid);
    var r := Turn(c, st);
    forall g | HasEdge(c, f, g) ensures g in r.reachable {
      if ModEdge(c, f, g) {
        var k :| 0 <= k < |c.mods(f)| && Resolve(c, c.mods(f)[k]) == Some(g);
      }
    }
    forall g | ModEdge(c, f, g) && g !in st.reachable ensures g in r.queue {
      var k :| 0 <= k < |c.mods(f)| && Resolve(c, c.mods(f)[k]) == Some(g);
    }
  }

  // ----- What is reached -----

  /** The invariant: `seen` are the files scanned so far. */
  ghost predicate Progress(c: Crate, st: State, seen: set<File>) {
    && (forall f :: f in c.roots ==> f in st.reachable)
    && (forall f :: f in st.queue ==> f in st.reachable)
    && seen <= st.reachable
    && (forall f, g :: f in seen && HasEdge(c, f, g) ==> g in st.reachable)
    && (forall g :: g in st.reachable ==> g in seen || g in st.queue || JustIncluded(c, seen, g))
    && (forall g :: g in st.reachable ==> Justified(c, seen, g))
    && (forall f :: f in seen || f in st.queue ==> Scannable(c, seen, f))
  }

  /** The only reached files that are never queued: texts that were included. */
  ghost predicate JustIncluded(c: Crate, seen: set<File>, g: File) {
    g !in c.rust && g !in c.roots && exists e :: e in seen && IncludeEdge(c, e, g)
  }

  lemma BeginProgress(c: Crate)
    ensures Progress(c, Begin(c), {})
  {
  }

  /** Each reached file is a root or the target of an edge from a scanned file. */
  ghost predicate Justified(c: Crate, seen: set<File>, g: File) {
    g in c.roots || exists f :: f in seen && HasEdge(c, f, g)
  }

  /** Scanned files are roots, Rust files or module targets. */
  ghost predicate Scannable(c: Crate, seen: set<File>, f: File) {
    f in c.roots || f in c.rust || exists e :: e in seen && ModEdge(c, e, f)
  }

  lemma JustifiedMore(c: Crate, seen: set<File>, more: set<File>, g: File)
    requires seen <= more
    ensures Justified(c, seen, g) ==> Justified(c, more, g)
    ensures Scannable(c, seen, g) ==> Scannable(c, more, g)
    ensures JustIncluded(c, seen, g) ==> JustIncluded(c, more, g)
  {
  }

  lemma LastQueued(q: seq<File>)
    requires q != []
    ensures q[|q| - 1] in q && forall g :: g in q ==> g == q[|q| - 1] || g in q[..|q| - 1]
  {
    var n := |q| - 1;
    forall g | g in q ensures g == q[n] || g in q[..n] {
      var i :| 0 <= i <= n && q[i] == g;
      if i < n { assert q[..n][i] == g; }
    }
  }

  lemma TurnProgress(c: Crate, st: State, seen: set<File>)
    requires st.queue != [] && Progress(c, st, seen)
    ensures Progress(c, Turn(c, st), seen + {st.queue[|st.queue| - 1]})
  {
    hide ModEdge, IncludeEdge, Turn, Justified, Scannable, JustIncluded;
    var n := |st.queue| - 1;
    var f := st.queue[n];
    var st', seen' := Turn(c, st), seen + {f};
    TurnEffect(c, st);
    LastQueued(st.queue);
    forall g | g in st'.reachable ensures Justified(c, seen', g) {
      if g in st.reachable {
        JustifiedMore(c, seen, seen', g);
      } else {
        JustifiedBy(c, seen', f, g);
      }
    }
    forall g | g in st'.reachable ensures g in seen' || g in st'.queue || JustIncluded(c, seen', g) {
      if g in st.reachable {
        JustifiedMore(c, seen, seen', g);
      } else {
        NewlyIncluded(c, seen', f, g);
      }
    }
    forall g | g in seen' || g in st'.queue ensures Scannable(c, seen', g) {
      if g in seen || g in st.queue {
        JustifiedMore(c, seen, seen', g);
      } else {
        JustifiedBy(c, seen', f, g);
      }
    }
  }

  lemma JustifiedBy(c: Crate, seen: set<File>, f: File, g: File)
    requires f in seen
    ensures HasEdge(c, f, g) ==> Justified(c, seen, g)
    ensures ModEdge(c, f, g) || Requeues(c, f, g) ==> Scannable(c, seen, g)
  {
  }

  lemma NewlyIncluded(c: Crate, seen: set<File>, f: File, g: File)
    requires f in seen && HasEdge(c, f, g) && g !in c.roots
    ensures ModEdge(c, f, g) || Requeues(c, f, g) || JustIncluded(c, seen, g)
  {
  }

  /** Closed under the edges of all Rust files. */
  ghost predicate Closed(c: Crate, s: set<File>) {
    && (forall f :: f in c.roots ==> f in s)
    && (forall f, g :: f in s && f in c.rust && HasEdge(c, f, g) ==> g in s)
  }

  /** What the audit may scan: roots, Rust files and module targets. */
  ghost predicate ModuleFile(c: Crate, f: File) {
    f in c.roots || f in c.rust || exists e :: ModEdge(c, e, f)
  }

  /** Holds the roots and is closed under the edges of all module files. */
  ghost predicate ModuleClosed(c: Crate, s: set<File>) {
    && (forall f :: f in c.roots ==> f in s)
    && (forall f, g :: f in s && ModuleFile(c, f) && HasEdge(c, f, g) ==> g in s)
  }

  /** No text file is both declared as a module and included. */
  ghost predicate NoneMixed(c: Crate) {
    forall d, e, g :: ModEdge(c, d, g) && IncludeEdge(c, e, g) ==> g in c.rust || g in c.roots
  }

  /** Roots and module targets are Rust files. */
  ghost predicate ModulesAreRust(c: Crate) {
    && (forall f :: f in c.roots ==> f in c.rust)
    && (forall f, g :: ModEdge(c, f, g) ==> g in c.rust)
  }

  lemma RustModules(c: Crate, s: set<File>)
    requires ModulesAreRust(c)
    ensures NoneMixed(c) && (ModuleClosed(c, s) <==> Closed(c, s))
  {
    hide ModEdge, IncludeEdge, HasEdge;
    forall f ensures ModuleFile(c, f) <==> f in c.rust {
    }
  }

  /** An emptied queue leaves a set closed under the edges of Rust files ... */
  lemma FinishedClosed(c: Crate, st: State, seen: set<File>)
    requires Progress(c, st, seen) && st.queue == []
    ensures Closed(c, st.reachable)
  {
    hide HasEdge, IncludeEdge, Justified, Scannable;
  }

  lemma NotJustIncluded(c: Crate, seen: set<File>, f: File)
    requires NoneMixed(c) && ModuleFile(c, f)
    ensures !JustIncluded(c, seen, f)
  {
  }

  /** ... and, when no text file is mixed, of all module files, each of which has been
      scanned. */
  lemma FinishedModuleClosed(c: Crate, st: State, seen: set<File>)
    requires Progress(c, st, seen) && st.queue == [] && NoneMixed(c)
    ensures ModuleClosed(c, st.reachable)
    ensures forall f :: f in st.reachable && ModuleFile(c, f) ==> f in seen
  {
    hide ModEdge, IncludeEdge, HasEdge, Justified, Scannable;
    forall f | f in st.reachable && ModuleFile(c, f) ensures f in seen {
      NotJustIncluded(c, seen, f);
    }
  }

  // ----- Declarations without a file -----

  /** No candidate of the `k`-th declaration of `f` is a file. */
  predicate Missing(c: Crate, f: File, k: nat) {
    k < |c.mods(f)| && forall i :: 0 <= i < |c.mods(f)[k]| ==> c.mods(f)[k][i] !in c.existing
  }

  /** The list holds exactly the declarations of scanned files that have no file. */
  ghost predicate Ledger(c: Crate, unresolved: seq<(File, nat)>, seen: set<File>) {
    forall f, k: nat :: (f, k) in unresolved <==> f in seen && Missing(c, f, k)
  }

  lemma {:induction false} AddModsLedger(c: Crate, f: File, n: nat, st: State)
    requires n <= |c.mods(f)|
    ensures forall g, k: nat :: (g, k) in AddMods(c, f, n, st).unresolved <==>
              (g, k) in st.unresolved || (g == f && k < n && Missing(c, f, k))
  {
    if n > 0 { AddModsLedger(c, f, n - 1, st); }
  }

  lemma {:induction false} AddIncludesLedger(c: Crate, f: File, n: nat, st: State)
    requires n <= |c.includes(f)|
    ensures AddIncludes(c, f, n, st).unresolved == st.unresolved
  {
    if n > 0 { AddIncludesLedger(c, f, n - 1, st); }
  }

  lemma TurnLedger(c: Crate, st: State, seen: set<File>)
    requires st.queue != [] && Ledger(c, st.unresolved, seen)
    ensures Ledger(c, Turn(c, st).unresolved, seen + {st.queue[|st.queue| - 1]})
  {
    hide AddMod, AddInclude, Missing;
    var n := |st.queue| - 1;
    var f := st.queue[n];
    var st0 := st.(queue := st.queue[..n]);
    AddModsLedger(c, f, |c.mods(f)|, st0);
    AddIncludesLedger(c, f, |c.includes(f)|, AddMods(c, f, |c.mods(f)|, st0));
    forall k: nat | Missing(c, f, k) ensures k < |c.mods(f)| { MissingDeclared(c, f, k); }
  }

  lemma MissingDeclared(c: Crate, f: File, k: nat)
    requires Missing(c, f, k)
    ensures k < |c.mods(f)|
  {
  }

  /** Reported are only declarations that module files reached make and that have no file;
      of Rust files all of them, and of all module files when no text file is mixed. */
  ghost predicate ReportedExactly(c: Crate, unresolved: seq<(File, nat)>, reachable: set<File>) {
    && (forall f, k: nat :: (f, k) in unresolved ==> f in reachable && ModuleFile(c, f) && Missing(c, f, k))
    && (forall f, k: nat :: f in reachable && f in c.rust && Missing(c, f, k) ==> (f, k) in unresolved)
    && (NoneMixed(c) ==> forall f, k: nat :: f in reachable && ModuleFile(c, f) && Missing(c, f, k) ==> (f, k) in unresolved)
  }

  lemma FinishedLedger(c: Crate, st: State, seen: set<File>)
    requires Progress(c, st, seen) && st.queue == [] && Ledger(c, st.unresolved, seen)
    ensures ReportedExactly(c, st.unresolved, st.reachable)
  {
    hide ModEdge, IncludeEdge, HasEdge, Justified, Missing, NoneMixed;
    forall f | f in seen ensures ModuleFile(c, f) {
      assert Scannable(c, seen, f);
    }
    if NoneMixed(c) { FinishedModuleClosed(c, st, seen); }
  }

  /** Only what every set closed under the edges of module files holds is reached. */
  lemma {:induction false} NeverTooMuch(c: Crate, n: nat, s: set<File>)
    requires ModuleClosed(c, s)
    ensures After(c, n).reachable <= s
    ensures forall f :: f in After(c, n).queue ==> f in s && ModuleFile(c, f)
  {
    hide Turn, Resolve;
    if n > 0 {
      NeverTooMuch(c, n - 1, s);
      var st := After(c, n - 1);
      if st.queue != [] {
        TurnEffect(c, st);
        var f := st.queue[|st.queue| - 1];
        assert f in st.queue;
      }
    }
  }

  // ----- When it ends -----

  /** Every chain of requeuing includes from `f` has fewer than `k` files. */
  ghost predicate GroundedIn(c: Crate, f: File, k: nat)
    decreases k
  {
    k > 0 && forall i :: 0 <= i < |c.includes(f)| && Requeues(c, f, c.includes(f)[i]) ==> GroundedIn(c, c.includes(f)[i], k - 1)
  }

  /** No endless chain of includes starts at `f`. */
  ghost predicate Grounded(c: Crate, f: File) {
    exists k :: GroundedIn(c, f, k)
  }

  lemma {:induction false} GroundedMore(c: Crate, f: File, k: nat, m: nat)
    requires GroundedIn(c, f, k) && k <= m
    ensures GroundedIn(c, f, m)
    decreases k
  {
    forall i | 0 <= i < |c.includes(f)| && Requeues(c, f, c.includes(f)[i]) ensures GroundedIn(c, c.includes(f)[i], m - 1) {
      GroundedMore(c, c.includes(f)[i], k - 1, m - 1);
    }
  }

  lemma {:induction false} GroundedBound(c: Crate, f: File, n: nat) returns (k: nat)
    requires n <= |c.includes(f)|
    requires forall i :: 0 <= i < n && Requeues(c, f, c.includes(f)[i]) ==> Grounded(c, c.includes(f)[i])
    ensures forall i :: 0 <= i < n && Requeues(c, f, c.includes(f)[i]) ==> GroundedIn(c, c.includes(f)[i], k)
  {
    k := 0;
    if n > 0 {
      var k0 := GroundedBound(c, f, n - 1);
      var g := c.includes(f)[n - 1];
      k := k0;
      if Requeues(c, f, g) {
        var k1 :| GroundedIn(c, g, k1);
        k := if k0 < k1 then k1 else k0;
        GroundedMore(c, g, k1, k);
      }
      forall i | 0 <= i < n - 1 && Requeues(c, f, c.includes(f)[i]) ensures GroundedIn(c, c.includes(f)[i], k) {
        GroundedMore(c, c.includes(f)[i], k0, k);
      }
    }
  }

  /** A file that is not grounded requeues a file that is not grounded. */
  lemma EndlessChild(c: Crate, f: File) returns (g: File)
    requires !Grounded(c, f)
    ensures Requeues(c, f, g) && !Grounded(c, g)
  {
    if forall i :: 0 <= i < |c.includes(f)| && Requeues(c, f, c.includes(f)[i]) ==> Grounded(c, c.includes(f)[i]) {
      var k := GroundedBound(c, f, |c.includes(f)|);
      assert GroundedIn(c, f, k + 1);
    }
    var i :| 0 <= i < |c.includes(f)| && Requeues(c, f, c.includes(f)[i]) && !Grounded(c, c.includes(f)[i]);
    g := c.includes(f)[i];
  }

  /** Once a file that is not grounded is queued, the queue is never empty again. */
  lemma {:induction false} EndlessStays(c: Crate, n: nat, m: nat, f: File) returns (g: File)
    requires n <= m && f in After(c, n).queue && !Grounded(c, f)
    ensures g in After(c, m).queue && !Grounded(c, g)
    decreases m
  {
    hide Turn, Grounded, Requeues;
    if n == m {
      g := f;
    } else {
      var h := EndlessStays(c, n, m - 1, f);
      var st := After(c, m - 1);
      TurnEffect(c, st);
      var e := st.queue[|st.queue| - 1];
      if h == e {
        g := EndlessChild(c, h);
      } else {
        g := h;
        var i :| 0 <= i < |st.queue| && st.queue[i] == h;
        assert st.queue[..|st.queue| - 1][i] == h;
      }
    }
  }

  /** A queued file with an endless include chain keeps the audit from ending. */
  lemma EndlessNeverEnds(c: Crate, n: nat, f: File, m: nat)
    requires f in After(c, n).queue && !Grounded(c, f)
    ensures m >= n ==> After(c, m).queue != []
    ensures m < n ==> After(c, m).queue != []
  {
    if m >= n {
      var g := EndlessStays(c, n, m, f);
    } else if After(c, m).queue == [] {
      EmptyStays(c, m, n);
    }
  }

  lemma {:induction false} EmptyStays(c: Crate, m: nat, n: nat)
    requires m <= n && After(c, m).queue == []
    ensures After(c, n) == After(c, m)
    decreases n
  {
    if m < n { EmptyStays(c, m, n - 1); }
  }

  /** A file that includes itself, at any distance, is not grounded. */
  ghost predicate IncludePath(c: Crate, p: seq<File>) {
    |p| > 0 && forall i :: 0 < i < |p| ==> Requeues(c, p[i - 1], p[i])
  }

  lemma {:induction false} CycleNotGrounded(c: Crate, p: seq<File>, j: nat, k: nat)
    requires IncludePath(c, p) && |p| > 1 && p[0] == p[|p| - 1] && j < |p|
    ensures !GroundedIn(c, p[j], k)
    decreases k
  {
    if k > 0 {
      var i := if j == |p| - 1 then 1 else j + 1;
      CycleNotGrounded(c, p, i, k - 1);
      assert Requeues(c, p[i - 1], p[i]);
      var x :| 0 <= x < |c.includes(p[j])| && c.includes(p[j])[x] == p[i];
    }
  }

  /** How many turns a queued file can cause without anything new being reached. */
  ghost function Weight(c: Crate, f: File, k: nat): nat
    decreases k, |c.includes(f)| + 1
  {
    if k == 0 then 0 else 1 + ChildWeight(c, f, |c.includes(f)|, k)
  }

  ghost function ChildWeight(c: Crate, f: File, n: nat, k: nat): nat
    requires n <= |c.includes(f)| && k > 0
    decreases k, n
  {
    if n == 0 then 0 else
      ChildWeight(c, f, n - 1, k) + (if Requeues(c, f, c.includes(f)[n - 1]) then Weight(c, c.includes(f)[n - 1], k - 1) else 0)
  }

  ghost function QueueWeight(c: Crate, q: seq<File>, k: nat): nat {
    if q == [] then 0 else QueueWeight(c, q[..|q| - 1], k) + Weight(c, q[|q| - 1], k)
  }

  /** Beyond the depth of the include chains the weight is the same. */
  lemma {:induction false} WeightStable(c: Crate, f: File, k: nat)
    requires GroundedIn(c, f, k)
    ensures Weight(c, f, k + 1) == Weight(c, f, k)
    decreases k, |c.includes(f)| + 1
  {
    ChildWeightStable(c, f, |c.includes(f)|, k);
  }

  lemma {:induction false} ChildWeightStable(c: Crate, f: File, n: nat, k: nat)
    requires GroundedIn(c, f, k) && n <= |c.includes(f)|
    ensures ChildWeight(c, f, n, k + 1) == ChildWeight(c, f, n, k)
    decreases k, n
  {
    if n > 0 {
      ChildWeightStable(c, f, n - 1, k);
      if Requeues(c, f, c.includes(f)[n - 1]) {
        WeightStable(c, c.includes(f)[n - 1], k - 1);
      }
    }
  }

  lemma QueueWeightSnoc(c: Crate, q: seq<File>, f: File, k: nat)
    ensures QueueWeight(c, q + [f], k) == QueueWeight(c, q, k) + Weight(c, f, k)
  {
    assert (q + [f])[..|q|] == q;
  }

  lemma {:induction false} AddModsQuiet(c: Crate, f: File, n: nat, st: State)
    requires n <= |c.mods(f)|
    ensures st.reachable <= AddMods(c, f, n, st).reachable
    ensures AddMods(c, f, n, st).reachable == st.reachable ==> AddMods(c, f, n, st).queue == st.queue
  {
    if n > 0 { AddModsQuiet(c, f, n - 1, st); }
  }

  /** Includes add at most the weight of the requeued children. */
  lemma {:induction false} AddIncludesWeight(c: Crate, f: File, n: nat, st: State, k: nat)
    requires n <= |c.includes(f)| && GroundedIn(c, f, k)
    ensures st.reachable <= AddIncludes(c, f, n, st).reachable
    ensures QueueWeight(c, AddIncludes(c, f, n, st).queue, k) <= QueueWeight(c, st.queue, k) + ChildWeight(c, f, n, k)
  {
    if n > 0 {
      AddIncludesWeight(c, f, n - 1, st, k);
      var g := c.includes(f)[n - 1];
      QueueWeightSnoc(c, AddIncludes(c, f, n - 1, st).queue, g, k);
      if Requeues(c, f, g) { WeightStable(c, g, k - 1); }
    }
  }

  /** Each turn reaches a new file or lightens the queue. */
  lemma TurnMeasure(c: Crate, st: State, k: nat)
    requires st.queue != [] && GroundedIn(c, st.queue[|st.queue| - 1], k)
    ensures st.reachable <= Turn(c, st).reachable
    ensures Turn(c, st).reachable == st.reachable ==> QueueWeight(c, Turn(c, st).queue, k) < QueueWeight(c, st.queue, k)
  {
    var n := |st.queue| - 1;
    var f := st.queue[n];
    var st0 := st.(queue := st.queue[..n]);
    AddModsQuiet(c, f, |c.mods(f)|, st0);
    var mid := AddMods(c, f, |c.mods(f)|, st0);
    AddIncludesWeight(c, f, |c.includes(f)|, mid, k);
  }

  ghost function Files(c: Crate): set<File> {
    c.existing + set f | f in c.roots
  }

  lemma {:induction false} ReachedExist(c: Crate, n: nat)
    ensures After(c, n).reachable <= Files(c)
    ensures forall f :: f in After(c, n).queue ==> f in Files(c)
  {
    hide Turn;
    if n > 0 {
      ReachedExist(c, n - 1);
      var st := After(c, n - 1);
      if st.queue != [] {
        TurnEffect(c, st);
        LastQueued(st.queue);
      }
    }
  }

  /** Everything the audit ever queues is grounded, by a common bound. */
  ghost predicate AllGroundedIn(c: Crate, k: nat) {
    forall n: nat, f :: f in After(c, n).queue ==> GroundedIn(c, f, k)
  }

  lemma {:induction false} Ends(c: Crate, n: nat, k: nat) returns (m: nat)
    requires AllGroundedIn(c, k)
    ensures After(c, m).queue == []
    decreases Files(c) - After(c, n).reachable, QueueWeight(c, After(c, n).queue, k)
  {
    hide Turn, GroundedIn, QueueWeight;
    var st := After(c, n);
    if st.queue == [] {
      m := n;
    } else {
      LastQueued(st.queue);
      TurnMeasure(c, st, k);
      ReachedExist(c, n + 1);
      assert After(c, n + 1) == Turn(c, st);
      if Turn(c, st).reachable != st.reachable {
        var g :| g in Turn(c, st).reachable && g !in st.reachable;
        assert g in Files(c) - st.reachable;
      }
      m := Ends(c, n + 1, k);
    }
  }

  lemma {:induction false} CommonBound(c: Crate, s: set<File>) returns (k: nat)
    requires forall f :: f in s ==> Grounded(c, f)
    ensures forall f :: f in s ==> GroundedIn(c, f, k)
    decreases |s|
  {
    k := 0;
    if |s| > 0 {
      var f: File :| f in s;
      var k0 := CommonBound(c, s - {f});
      var k1 :| GroundedIn(c, f, k1);
      k := if k0 < k1 then k1 else k0;
      forall g | g in s ensures GroundedIn(c, g, k) {
        GroundedMore(c, g, if g == f then k1 else k0, k);
      }
    }
  }

  /** Some file is queued at some time. */
  ghost predicate EverQueued(c: Crate, f: File) {
    exists n: nat :: f in After(c, n).queue
  }

  /** The audit ends exactly when no file it queues starts an endless chain of includes. */
  lemma EndsIffGrounded(c: Crate)
    ensures (exists n: nat :: After(c, n).queue == []) <==> (forall f :: EverQueued(c, f) ==> Grounded(c, f))
  {
    hide After, Grounded;
    if forall f :: EverQueued(c, f) ==> Grounded(c, f) {
      var queued := set f | f in Files(c) && EverQueued(c, f);
      var k := CommonBound(c, queued);
      forall n: nat, f | f in After(c, n).queue ensures GroundedIn(c, f, k) {
        ReachedExist(c, n);
        assert EverQueued(c, f);
      }
      var m := Ends(c, 0, k);
    }
    if f :| EverQueued(c, f) && !Grounded(c, f) {
      var n: nat :| f in After(c, n).queue;
      forall m: nat ensures After(c, m).queue != [] {
        EndlessNeverEnds(c, n, f, m);
      }
    }
  }

  // ----- When it ends, from the files alone -----

  ghost predicate IncludeCycle(c: Crate, p: seq<File>) {
    IncludePath(c, p) && |p| > 1 && p[0] == p[|p| - 1]
  }

  /** Following includes of Rust files from `f` can come to the same file twice. */
  ghost predicate Loops(c: Crate, f: File) {
    exists p :: IncludePath(c, p) && p[0] == f && Repeats(p)
  }

  ghost predicate Repeats(p: seq<File>) {
    exists i, j :: 0 <= i < j < |p| && p[i] == p[j]
  }

  lemma {:induction false} Pigeonhole(p: seq<File>, s: set<File>)
    requires |p| > |s| && forall i :: 0 <= i < |p| ==> p[i] in s
    ensures Repeats(p)
    decreases |p|
  {
    var n := |p| - 1;
    if p[n] in p[..n] {
      var i :| 0 <= i < n && p[..n][i] == p[n];
      assert p[i] == p[n];
    } else {
      Pigeonhole(p[..n], s - {p[n]});
      var i, j :| 0 <= i < j < n && p[..n][i] == p[..n][j];
      assert p[i] == p[j];
    }
  }

  lemma {:induction false} EndlessPath(c: Crate, f: File, n: nat) returns (p: seq<File>)
    requires !Grounded(c, f)
    ensures |p| == n + 1 && IncludePath(c, p) && p[0] == f && !Grounded(c, p[n])
    decreases n
  {
    hide Grounded, Requeues;
    p := [f];
    if n > 0 {
      var q := EndlessPath(c, f, n - 1);
      var g := EndlessChild(c, q[n - 1]);
      p := q + [g];
    }
  }

  lemma GroundedAfter(c: Crate, f: File, g: File, k: nat)
    requires Requeues(c, f, g) && GroundedIn(c, f, k)
    ensures Grounded(c, g)
  {
    var i :| 0 <= i < |c.includes(f)| && c.includes(f)[i] == g;
    assert GroundedIn(c, g, k - 1);
  }

  /** The file before one that is not grounded is not grounded. */
  lemma NotGroundedBefore(c: Crate, f: File, g: File)
    requires Requeues(c, f, g) && !Grounded(c, g)
    ensures !Grounded(c, f)
  {
    hide GroundedIn, Requeues;
    forall k: nat ensures !GroundedIn(c, f, k) {
      if GroundedIn(c, f, k) { GroundedAfter(c, f, g, k); }
    }
  }

  lemma {:induction false} NotGroundedAlong(c: Crate, p: seq<File>, i: nat)
    requires IncludePath(c, p) && i < |p| && !Grounded(c, p[i])
    ensures !Grounded(c, p[0])
    decreases i
  {
    hide Grounded, Requeues;
    if i > 0 {
      assert Requeues(c, p[i - 1], p[i]);
      NotGroundedBefore(c, p[i - 1], p[i]);
      NotGroundedAlong(c, p, i - 1);
    }
  }

  lemma CycleInside(c: Crate, p: seq<File>, i: nat, j: nat)
    requires IncludePath(c, p) && i < j < |p| && p[i] == p[j]
    ensures IncludeCycle(c, p[i..j + 1])
  {
    hide Requeues;
    var q := p[i..j + 1];
    forall k | 0 < k < |q| ensures Requeues(c, q[k - 1], q[k]) {
      assert Requeues(c, p[i + k - 1], p[i + k]);
    }
  }

  /** A file has an endless chain of includes exactly when its includes loop. */
  lemma GroundedIffNoLoop(c: Crate, f: File)
    ensures Grounded(c, f) <==> !Loops(c, f)
  {
    if !Grounded(c, f) {
      var p := EndlessPath(c, f, |c.existing| + 1);
      forall i | 0 <= i < |p[1..]| ensures p[1..][i] in c.existing {
        assert Requeues(c, p[i], p[i + 1]);
      }
      Pigeonhole(p[1..], c.existing);
      var i, j :| 0 <= i < j < |p[1..]| && p[1..][i] == p[1..][j];
      assert p[i + 1] == p[j + 1];
    }
    if Loops(c, f) {
      var p :| IncludePath(c, p) && p[0] == f && Repeats(p);
      var i: nat, j: nat :| i < j < |p| && p[i] == p[j];
      CycleInside(c, p, i, j);
      forall k: nat ensures !GroundedIn(c, p[i], k) {
        CycleNotGrounded(c, p[i..j + 1], 0, k);
      }
      NotGroundedAlong(c, p, i);
    }
  }

  /** What has to be scanned, by the files alone: the module files in every set that
      holds the roots and is closed under the edges of module files. */
  ghost predicate MustScan(c: Crate, f: File) {
    ModuleFile(c, f) && forall s :: ModuleClosed(c, s) ==> f in s
  }

  lemma QueuedMustScan(c: Crate, f: File)
    requires EverQueued(c, f)
    ensures MustScan(c, f)
  {
    hide After, ModuleFile, ModuleClosed;
    var n: nat :| f in After(c, n).queue;
    forall s | ModuleClosed(c, s) ensures f in s { NeverTooMuch(c, n, s); }
    Everything(c);
    NeverTooMuch(c, n, Files(c));
  }

  lemma Everything(c: Crate)
    ensures ModuleClosed(c, Files(c))
  {
  }

  lemma {:induction false} RunProgress(c: Crate, n: nat) returns (seen: set<File>)
    ensures Progress(c, After(c, n), seen) && forall f :: f in seen ==> EverQueued(c, f)
    decreases n
  {
    hide Progress, Turn;
    if n == 0 {
      BeginProgress(c);
      seen := {};
    } else {
      seen := RunProgress(c, n - 1);
      var st := After(c, n - 1);
      if st.queue != [] {
        TurnProgress(c, st, seen);
        assert st.queue[|st.queue| - 1] in After(c, n - 1).queue;
        seen := seen + {st.queue[|st.queue| - 1]};
      }
    }
  }

  /** Whenever the includes of the files to be scanned do not loop, the audit ends. */
  lemma EndsWithoutLoops(c: Crate)
    requires forall f :: MustScan(c, f) ==> !Loops(c, f)
    ensures exists n: nat :: After(c, n).queue == []
  {
    hide After, Grounded, MustScan, Loops, EverQueued;
    forall f | EverQueued(c, f) ensures Grounded(c, f) {
      QueuedMustScan(c, f);
      GroundedIffNoLoop(c, f);
    }
    EndsIffGrounded(c);
  }

  /** Without a cycle of includes the audit ends. */
  lemma AcyclicEnds(c: Crate)
    requires forall p :: !IncludeCycle(c, p)
    ensures exists n: nat :: After(c, n).queue == []
  {
    hide After, IncludeCycle, Requeues, MustScan;
    forall f ensures !Loops(c, f) {
      if Loops(c, f) {
        var p :| IncludePath(c, p) && p[0] == f && Repeats(p);
        var i: nat, j: nat :| i < j < |p| && p[i] == p[j];
        CycleInside(c, p, i, j);
      }
    }
    EndsWithoutLoops(c);
  }

  /** When no text file is both a module and included, the audit ends exactly when the
      includes of the files to be scanned do not loop. */
  lemma EndsIffNoLoops(c: Crate)
    requires NoneMixed(c)
    ensures (exists n: nat :: After(c, n).queue == []) <==> (forall f :: MustScan(c, f) ==> !Loops(c, f))
  {
    hide After, Grounded, Loops, EverQueued, Progress, NoneMixed, ModuleFile, ModuleClosed;
    if n: nat :| After(c, n).queue == [] {
      var seen := RunProgress(c, n);
      FinishedModuleClosed(c, After(c, n), seen);
      EndsIffGrounded(c);
      forall f | MustScan(c, f) ensures !Loops(c, f) {
        assert EverQueued(c, f);
        GroundedIffNoLoop(c, f);
      }
    }
    if forall f :: MustScan(c, f) ==> !Loops(c, f) {
      EndsWithoutLoops(c);
    }
  }

  // ----- The audit -----

  method ScanMods(c: Crate, f: File, st0: State) returns (st: State)
    ensures st == AddMods(c, f, |c.mods(f)|, st0)
  {
    st := st0;
    for k := 0 to |c.mods(f)|
      invariant st == AddMods(c, f, k, st0)
    {
      match Resolve(c, c.mods(f)[k]) {
        case None =>
          st := st.(unresolved := st.unresolved + [(f, k)]);
        case Some(g) =>
          if g !in st.reachable {
            st := st.(reachable := st.reachable + {g}, queue := st.queue + [g]);
          }
      }
    }
  }

  method ScanIncludes(c: Crate, f: File, st0: State) returns (st: State)
    ensures st == AddIncludes(c, f, |c.includes(f)|, st0)
  {
    st := st0;
    for k := 0 to |c.includes(f)|
      invariant st == AddIncludes(c, f, k, st0)
    {
      var target := c.includes(f)[k];
      if target in c.existing {
        st := st.(reachable := st.reachable + {target});
        if target in c.rust && target !in st.queue {
          st := st.(queue := st.queue + [target]);
        }
      }
    }
  }

  /** A common bound on the include chains of everything the audit queues. */
  lemma LoopFreeBound(c: Crate) returns (k: nat)
    requires forall f :: MustScan(c, f) ==> !Loops(c, f)
    ensures AllGroundedIn(c, k)
  {
    hide After, Grounded, MustScan, Loops, GroundedIn;
    var queued := set f | f in Files(c) && EverQueued(c, f);
    forall f | EverQueued(c, f) ensures Grounded(c, f) {
      QueuedMustScan(c, f);
      GroundedIffNoLoop(c, f);
    }
    k := CommonBound(c, queued);
    forall n: nat, f | f in After(c, n).queue ensures GroundedIn(c, f, k) {
      ReachedExist(c, n);
      assert EverQueued(c, f);
    }
  }

  /** The audit, where the includes of the files to be scanned do not loop: orphans are
      the files not reached; everything the Rust files lead to is reached, and nothing
      but what the module files lead to. */
  method AuditCrate(c: Crate, allFiles: set<File>)
      returns (orphans: set<File>, unresolved: seq<(File, nat)>, reachable: set<File>)
    requires forall f :: MustScan(c, f) ==> !Loops(c, f)
    ensures orphans == allFiles - reachable
    ensures Closed(c, reachable)
    ensures forall s :: ModuleClosed(c, s) ==> reachable <= s
    ensures NoneMixed(c) ==> ModuleClosed(c, reachable)
    ensures ModulesAreRust(c) ==> forall s :: Closed(c, s) ==> reachable <= s
    ensures ReportedExactly(c, unresolved, reachable)
    ensures exists n: nat :: After(c, n) == State(reachable, [], unresolved)
  {
    hide Turn, GroundedIn, QueueWeight, Progress, Closed, ModulesAreRust, MustScan, Loops, ModuleClosed, NoneMixed;
    hide Ledger, ReportedExactly;
    ghost var k := LoopFreeBound(c);
    var st := Begin(c);
    ghost var n: nat, seen := 0, {};
    BeginProgress(c);
    assert Ledger(c, st.unresolved, seen) by { NothingReported(c); }
    while st.queue != []
      invariant st == After(c, n) && Progress(c, st, seen) && Ledger(c, st.unresolved, seen)
      decreases Files(c) - st.reachable, QueueWeight(c, st.queue, k)
    {
      ghost var before := st;
      LastQueued(st.queue);
      TurnMeasure(c, st, k);
      TurnProgress(c, st, seen);
      TurnLedger(c, st, seen);
      ReachedExist(c, n + 1);
      var last := |st.queue| - 1;
      var f := st.queue[last];
      st := ScanMods(c, f, st.(queue := st.queue[..last]));
      st := ScanIncludes(c, f, st);
      assert st == Turn(c, before) by { TurnIs(c, before); }
      n, seen := n + 1, seen + {f};
      if st.reachable != before.reachable {
        NewFile(c, before.reachable, st.reachable);
      }
    }
    reachable, unresolved := st.reachable, st.unresolved;
    orphans := allFiles - reachable;
    FinishedClosed(c, st, seen);
    FinishedLedger(c, st, seen);
    if NoneMixed(c) { FinishedModuleClosed(c, st, seen); }
    forall s | ModuleClosed(c, s) ensures reachable <= s { NeverTooMuch(c, n, s); }
    forall s | ModulesAreRust(c) && Closed(c, s) ensures reachable <= s {
      RustModules(c, s);
      NeverTooMuch(c, n, s);
    }
    assert After(c, n) == State(reachable, [], unresolved);
  }

  lemma NothingReported(c: Crate)
    ensures Ledger(c, [], {})
  {
  }

  lemma TurnIs(c: Crate, st: State)
    requires st.queue != []
    ensures var n := |st.queue| - 1;
            var f := st.queue[n];
            Turn(c, st) == AddIncludes(c, f, |c.includes(f)|, AddMods(c, f, |c.mods(f)|, st.(queue := st.queue[..n])))
  {
  }

  lemma NewFile(c: Crate, before: set<File>, after: set<File>)
    requires before <= after <= Files(c) && after != before
    ensures Files(c) - after < Files(c) - before
  {
    var g :| g in after && g !in before;
    assert g in Files(c) - before;
  }

  // ----- Where a module target is not a Rust file -----

  /** A root that includes a text file and declares a Rust module, which in turn
      declares the text file as a module by an explicit path. */
  function Mixed(): Crate {
    Crate([0], {0, 1, 2, 3}, {0, 1, 3},
          f => if f == 0 then [[1]] else if f == 1 then [[2]] else if f == 2 then [[3]] else [],
          f => if f == 0 then [2] else [])
  }

  lemma MixedFirstTurn()
    ensures Turn(Mixed(), State({0}, [0], [])) == State({0, 1, 2}, [1], [])
  {
    var c := Mixed();
    var st := State({0}, [], []);
    assert [0][..0] == [];
    assert c.mods(0) == [[1]] && c.includes(0) == [2];
    assert AddMods(c, 0, 0, st) == st;
    assert AddMods(c, 0, 1, st) == State({0, 1}, [1], []);
    assert AddIncludes(c, 0, 0, State({0, 1}, [1], [])) == State({0, 1}, [1], []);
    assert AddIncludes(c, 0, 1, State({0, 1}, [1], [])) == State({0, 1, 2}, [1], []);
  }

  lemma MixedSecondTurn()
    ensures Turn(Mixed(), State({0, 1, 2}, [1], [])) == State({0, 1, 2}, [], [])
  {
    var c := Mixed();
    var st := State({0, 1, 2}, [], []);
    assert [1][..0] == [];
    assert c.mods(1) == [[2]] && c.includes(1) == [];
    assert AddMods(c, 1, 0, st) == st;
    assert AddMods(c, 1, 1, st) == st;
  }

  lemma MixedNotClosed()
    ensures !ModuleClosed(Mixed(), {0, 1, 2})
  {
    var c := Mixed();
    assert c.mods(1)[0] == [2] && c.mods(2)[0] == [3];
    assert ModEdge(c, 1, 2) && ModEdge(c, 2, 3);
    assert ModuleFile(c, 2) && HasEdge(c, 2, 3);
  }

  /** The text file is reached by the include first, so its own module is never
      found: the audit reports file 3 as an orphan although module edges lead to it. */
  lemma MixedMissesAModule()
    ensures After(Mixed(), 2).queue == [] && After(Mixed(), 2).reachable == {0, 1, 2}
    ensures ModEdge(Mixed(), 0, 1) && ModEdge(Mixed(), 1, 2) && ModEdge(Mixed(), 2, 3)
    ensures !NoneMixed(Mixed()) && !ModuleClosed(Mixed(), {0, 1, 2})
  {
    hide Turn;
    var c := Mixed();
    MixedFirstTurn();
    MixedSecondTurn();
    assert After(c, 0) == State({0}, [0], []);
    assert After(c, 1) == State({0, 1, 2}, [1], []);
    assert c.mods(0)[0] == [1] && c.mods(1)[0] == [2] && c.mods(2)[0] == [3];
    assert ModEdge(c, 1, 2) && ModEdge(c, 2, 3) && IncludeEdge(c, 0, 2);
    MixedNotClosed();
  }

  /** The same files, the text declared as a module by the root that includes it. */
  function Declared(): Crate {
    Crate([0], {0, 2, 3}, {0, 3},
          f => if f == 0 then [[2]] else if f == 2 then [[3]] else [],
          f => if f == 0 then [2] else [])
  }

  lemma DeclaredFirstTurn()
    ensures Turn(Declared(), State({0}, [0], [])) == State({0, 2}, [2], [])
  {
    var c := Declared();
    var st := State({0}, [], []);
    assert [0][..0] == [];
    assert c.mods(0) == [[2]] && c.includes(0) == [2];
    assert AddMods(c, 0, 0, st) == st;
    assert AddMods(c, 0, 1, st) == State({0, 2}, [2], []);
    assert AddIncludes(c, 0, 0, State({0, 2}, [2], [])) == State({0, 2}, [2], []);
    assert AddIncludes(c, 0, 1, State({0, 2}, [2], [])) == State({0, 2}, [2], []);
  }

  lemma DeclaredSecondTurn()
    ensures Turn(Declared(), State({0, 2}, [2], [])) == State({0, 2, 3}, [3], [])
  {
    var c := Declared();
    var st := State({0, 2}, [], []);
    assert [2][..0] == [];
    assert c.mods(2) == [[3]] && c.includes(2) == [];
    assert AddMods(c, 2, 0, st) == st;
    assert AddMods(c, 2, 1, st) == State({0, 2, 3}, [3], []);
  }

  lemma DeclaredThirdTurn()
    ensures Turn(Declared(), State({0, 2, 3}, [3], [])) == State({0, 2, 3}, [], [])
  {
    var c := Declared();
    var st := State({0, 2, 3}, [], []);
    assert [3][..0] == [];
    assert c.mods(3) == [] && c.includes(3) == [];
  }

  /** A mixed text file need not cost anything: declarations are followed before
      includes, so whether modules are missed depends on the order of scanning. */
  lemma DeclaredMissesNothing()
    ensures !NoneMixed(Declared())
    ensures After(Declared(), 3).queue == [] && ModuleClosed(Declared(), After(Declared(), 3).reachable)
  {
    hide Turn;
    var c := Declared();
    DeclaredFirstTurn();
    DeclaredSecondTurn();
    DeclaredThirdTurn();
    assert After(c, 0) == State({0}, [0], []);
    assert After(c, 1) == State({0, 2}, [2], []);
    assert After(c, 2) == State({0, 2, 3}, [3], []);
    assert c.mods(0)[0] == [2];
    assert ModEdge(c, 0, 2) && IncludeEdge(c, 0, 2);
  }
}
