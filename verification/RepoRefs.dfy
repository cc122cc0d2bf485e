/**
 Repo-qualified task names and the pass that rewrites bare `needs`/`spawn`
 references inside a repo to the repo's own tasks.
 */
module RepoRefs {
  import opened Options

  const REPO_PREFIX: string := "repo:"

  datatype NeedsKind = Finished | Succeeded | Failed | AllFinished

  /** The header fields that name other tasks, and the schedule the graph shows. */
  datatype TaskDef = TaskDef(name: string, schedule: Option<string>, needs: Option<string>, spawn: Option<string>)

  predicate EndsWith(s: string, suffix: string) {
    |suffix| <= |s| && s[|s| - |suffix|..] == suffix
  }

  function Stem(s: string, suffix: string): string
    requires EndsWith(s, suffix)
  {
    s[..|s| - |suffix|]
  }

  /** Source task and kind of a `needs` value; the suffixes are tried in this order. */
  function NeedsParts(needs: string): (p: (string, NeedsKind))
    ensures |p.0| <= |needs| && p.0 == needs[..|p.0|]
  {
    if EndsWith(needs, ":all_finished") then (Stem(needs, ":all_finished"), AllFinished)
    else if EndsWith(needs, ":finished") then (Stem(needs, ":finished"), Finished)
    else if EndsWith(needs, ":terminal") then (Stem(needs, ":terminal"), Finished)
    else if EndsWith(needs, ":succeeded") then (Stem(needs, ":succeeded"), Succeeded)
    else if EndsWith(needs, ":failed") then (Stem(needs, ":failed"), Failed)
    else (needs, Finished)
  }

  lemma FinishedSuffixes(source: string)
    ensures NeedsParts(source + ":all_finished") == (source, AllFinished)
    ensures NeedsParts(source + ":finished") == (source, Finished)
  {
    SuffixIs(source, ":all_finished");
    SuffixIs(source, ":finished");
    SuffixIsNot(source, ":finished", ":all_finished", 9);
  }

  lemma TerminalSuffix(source: string)
    ensures NeedsParts(source + ":terminal") == (source, Finished)
  {
    SuffixIs(source, ":terminal");
    SuffixIsNot(source, ":terminal", ":all_finished", 1);
    SuffixIsNot(source, ":terminal", ":finished", 1);
  }

  lemma SucceededSuffix(source: string)
    ensures NeedsParts(source + ":succeeded") == (source, Succeeded)
  {
    SuffixIs(source, ":succeeded");
    SuffixIsNot(source, ":succeeded", ":all_finished", 3);
    SuffixIsNot(source, ":succeeded", ":finished", 3);
    SuffixIsNot(source, ":succeeded", ":terminal", 1);
  }

  lemma FailedSuffix(source: string)
    ensures NeedsParts(source + ":failed") == (source, Failed)
  {
    SuffixIs(source, ":failed");
    SuffixIsNot(source, ":failed", ":all_finished", 3);
    SuffixIsNot(source, ":failed", ":finished", 3);
    SuffixIsNot(source, ":failed", ":terminal", 1);
    SuffixIsNot(source, ":failed", ":succeeded", 3);
  }

  /** Which kind each suffix gives, whatever the source. */
  lemma SuffixKinds(source: string)
    ensures NeedsParts(source + ":finished") == (source, Finished)
    ensures NeedsParts(source + ":terminal") == (source, Finished)
    ensures NeedsParts(source + ":succeeded") == (source, Succeeded)
    ensures NeedsParts(source + ":failed") == (source, Failed)
    ensures NeedsParts(source + ":all_finished") == (source, AllFinished)
  {
    FinishedSuffixes(source);
    TerminalSuffix(source);
    SucceededSuffix(source);
    FailedSuffix(source);
  }

  /** Anything else is a source as it stands. */
  lemma NoSuffix(needs: string)
    requires forall suffix ::
               suffix in {":finished", ":terminal", ":succeeded", ":failed", ":all_finished"} ==>
                 !EndsWith(needs, suffix)
    ensures NeedsParts(needs) == (needs, Finished)
  {
    assert !EndsWith(needs, ":finished") && !EndsWith(needs, ":terminal") && !EndsWith(needs, ":succeeded");
    assert !EndsWith(needs, ":failed") && !EndsWith(needs, ":all_finished");
  }

  lemma SuffixIs(source: string, suffix: string)
    ensures EndsWith(source + suffix, suffix) && Stem(source + suffix, suffix) == source
  {
  }

  /** Two suffixes that differ `k` characters from their ends exclude each other. */
  lemma SuffixIsNot(source: string, suffix: string, other: string, k: nat)
    requires 1 <= k <= |suffix| && k <= |other| && suffix[|suffix| - k] != other[|other| - k]
    ensures !EndsWith(source + suffix, other)
  {
    var s := source + suffix;
    if |other| <= |s| {
      assert s[|s| - k] == suffix[|suffix| - k];
      assert s[|s| - |other|..][|other| - k] == s[|s| - k];
    }
  }

  function SlashAt(s: string): (i: nat)
    ensures i <= |s| && (forall k :: 0 <= k < i ==> s[k] != '/') && (i < |s| ==> s[i] == '/')
  {
    if s == "" || s[0] == '/' then 0 else 1 + SlashAt(s[1..])
  }

  /** `(repo, relative path)` of a well-formed qualified name. */
  function SplitRepo(name: string): Option<(string, string)> {
    if |name| < |REPO_PREFIX| || name[..|REPO_PREFIX|] != REPO_PREFIX then None
    else
      var rest := name[|REPO_PREFIX|..];
      var k := SlashAt(rest);
      if k == |rest| then None
      else if k == 0 || k + 1 == |rest| then None
      else Some((rest[..k], rest[k + 1..]))
  }

  function Prefix(repo: string): string { REPO_PREFIX + repo + "/" }

  function Qualify(repo: string, rel: string): string { Prefix(repo) + rel }

  // -------------------------------------------------------------------------
  // The pass
  // -------------------------------------------------------------------------

  function ResolveNeeds(names: set<string>, repo: string, needs: string): string {
    var source := NeedsParts(needs).0;
    if SplitRepo(source).None? && Qualify(repo, source) in names
    then Qualify(repo, source) + needs[|source|..] else needs
  }

  function ResolveSpawn(names: set<string>, repo: string, spawn: string): string {
    if SplitRepo(spawn).None? && Qualify(repo, spawn) in names then Qualify(repo, spawn) else spawn
  }

  function ResolveDef(names: set<string>, def: TaskDef): TaskDef {
    match SplitRepo(def.name)
    case None => def
    case Some((repo, _)) =>
      def.(needs := if def.needs.Some? then Some(ResolveNeeds(names, repo, def.needs.value)) else None,
           spawn := if def.spawn.Some? then Some(ResolveSpawn(names, repo, def.spawn.value)) else None)
  }

  function Names(defs: seq<TaskDef>): set<string> { set i | 0 <= i < |defs| :: defs[i].name }

  function Resolved(defs: seq<TaskDef>): seq<TaskDef> {
    seq(|defs|, i requires 0 <= i < |defs| => ResolveDef(Names(defs), defs[i]))
  }

  method ResolveOne(names: set<string>, repo: string, before: TaskDef) returns (def: TaskDef)
    ensures def.needs == if before.needs.Some? then Some(ResolveNeeds(names, repo, before.needs.value)) else None
    ensures def.spawn == if before.spawn.Some? then Some(ResolveSpawn(names, repo, before.spawn.value)) else None
    ensures def == before.(needs := def.needs, spawn := def.spawn)
  {
    def := before;
    if def.needs.Some? {
      var needs := def.needs.value;
      var source := NeedsParts(needs).0;
      if SplitRepo(source).None? {
        var candidate := Qualify(repo, source);
        if candidate in names {
          def := def.(needs := Some(candidate + needs[|source|..]));
        }
      }
    }
    if def.spawn.Some? {
      var candidate := Qualify(repo, def.spawn.value);
      if SplitRepo(def.spawn.value).None? && candidate in names {
        def := def.(spawn := Some(candidate));
      }
    }
  }

  lemma ResolvedOneMore(before: seq<TaskDef>, i: nat)
    requires i < |before|
    ensures (Resolved(before)[..i] + before[i..])[i := ResolveDef(Names(before), before[i])]
            == Resolved(before)[..i + 1] + before[i + 1..]
    ensures (Resolved(before)[..i] + before[i..])[i] == before[i]
  {
  }

  method ResolveAt(defs: array<TaskDef>, names: set<string>, i: nat)
    requires i < defs.Length
    modifies defs
    ensures defs[..] == old(defs[..])[i := ResolveDef(names, old(defs[i]))]
  {
    var split := SplitRepo(defs[i].name);
    if split.Some? {
      var def := ResolveOne(names, split.value.0, defs[i]);
      defs[i] := def;
    }
  }

  method CollectNames(defs: array<TaskDef>) returns (names: set<string>)
    ensures names == Names(defs[..])
  {
    names := set i | 0 <= i < defs.Length :: defs[i].name;
    assert forall i :: 0 <= i < defs.Length ==> defs[..][i] == defs[i];
  }

  method ResolveRepoRefs(defs: array<TaskDef>)
    modifies defs
    ensures defs[..] == Resolved(old(defs[..]))
  {
    ghost var before := defs[..];
    var names := CollectNames(defs);
    assert before == Resolved(before)[..0] + before[0..];
    var i := 0;
    while i < defs.Length
      invariant 0 <= i <= defs.Length
      invariant defs[..] == Resolved(before)[..i] + before[i..]
    {
      ResolvedOneMore(before, i);
      assert defs[i] == defs[..][i];
      ResolveAt(defs, names, i);
      i := i + 1;
    }
  }

  // -------------------------------------------------------------------------
  // Qualified names
  // -------------------------------------------------------------------------

  lemma {:induction false} FirstSlash(s: string, k: nat)
    requires k < |s| && s[k] == '/' && forall i :: 0 <= i < k ==> s[i] != '/'
    ensures SlashAt(s) == k
  {
  }

  lemma SplitQualified(repo: string, rel: string)
    requires repo != "" && '/' !in repo
    ensures SplitRepo(Qualify(repo, rel)) == if rel == "" then None else Some((repo, rel))
  {
    var name := Qualify(repo, rel);
    assert name[..|REPO_PREFIX|] == REPO_PREFIX;
    var rest := name[|REPO_PREFIX|..];
    assert rest == repo + "/" + rel;
    FirstSlash(rest, |repo|);
    assert rest[..|repo|] == repo && rest[|repo| + 1..] == rel;
  }

  /** Splitting undoes qualifying, and only qualified names of that shape split. */
  lemma SplitIff(name: string, repo: string, rel: string)
    ensures SplitRepo(name) == Some((repo, rel)) <==>
            name == Qualify(repo, rel) && repo != "" && '/' !in repo && rel != ""
  {
    if SplitRepo(name) == Some((repo, rel)) {
      var rest := name[|REPO_PREFIX|..];
      assert rest == repo + "/" + rel;
      assert name == REPO_PREFIX + rest;
    } else if name == Qualify(repo, rel) && repo != "" && '/' !in repo && rel != "" {
      SplitQualified(repo, rel);
    }
  }

  // -------------------------------------------------------------------------
  // Suffixes after qualification
  // -------------------------------------------------------------------------

  lemma SuffixBehindSlash(p: string, s: string, suffix: string)
    requires p != "" && p[|p| - 1] == '/' && '/' !in suffix
    ensures EndsWith(p + s, suffix) <==> EndsWith(s, suffix)
    ensures EndsWith(s, suffix) ==> Stem(p + s, suffix) == p + Stem(s, suffix)
  {
    var t := p + s;
    if |suffix| <= |s| {
      assert t[|t| - |suffix|..] == s[|s| - |suffix|..];
    } else if |suffix| <= |t| {
      var tail := t[|t| - |suffix|..];
      assert tail[|suffix| - |s| - 1] == '/';
    }
  }

  /** Putting a repo in front moves the source and leaves the kind. */
  lemma NeedsPartsQualified(repo: string, needs: string)
    ensures NeedsParts(Prefix(repo) + needs) == (Qualify(repo, NeedsParts(needs).0), NeedsParts(needs).1)
  {
    var p := Prefix(repo);
    SuffixBehindSlash(p, needs, ":all_finished");
    SuffixBehindSlash(p, needs, ":finished");
    SuffixBehindSlash(p, needs, ":terminal");
    SuffixBehindSlash(p, needs, ":succeeded");
    SuffixBehindSlash(p, needs, ":failed");
  }

  /** The rewritten value is the old one behind the repo prefix. */
  lemma RewrittenNeeds(repo: string, needs: string)
    ensures var source := NeedsParts(needs).0;
            Qualify(repo, source) + needs[|source|..] == Prefix(repo) + needs
  {
  }

  // -------------------------------------------------------------------------
  // What resolution does
  // -------------------------------------------------------------------------

  /** A reference is rewritten exactly when it is bare and the task's own repo defines it. */
  lemma ResolvesOwnRepoOnly(names: set<string>, repo: string, needs: string)
    ensures var r, source := ResolveNeeds(names, repo, needs), NeedsParts(needs).0;
            if SplitRepo(source).None? && Qualify(repo, source) in names
            then NeedsParts(r).0 == Qualify(repo, source) && NeedsParts(r).0 in names
            else r == needs
    ensures NeedsParts(ResolveNeeds(names, repo, needs)).1 == NeedsParts(needs).1
  {
    RewrittenNeeds(repo, needs);
    NeedsPartsQualified(repo, needs);
  }

  /** Of a task of a repo both references are resolved, each by the same rule. */
  lemma ResolvesBoth(names: set<string>, def: TaskDef, repo: string, rel: string)
    requires SplitRepo(def.name) == Some((repo, rel))
    ensures def.needs.Some? ==>
              var source := NeedsParts(def.needs.value).0;
              ResolveDef(names, def).needs
              == Some(if SplitRepo(source).None? && "repo:" + repo + "/" + source in names
                      then "repo:" + repo + "/" + def.needs.value else def.needs.value)
    ensures def.spawn.Some? ==>
              ResolveDef(names, def).spawn
              == Some(if SplitRepo(def.spawn.value).None? && "repo:" + repo + "/" + def.spawn.value in names
                      then "repo:" + repo + "/" + def.spawn.value else def.spawn.value)
  {
    if def.needs.Some? { RewrittenNeeds(repo, def.needs.value); }
  }

  lemma ResolutionKeeps(names: set<string>, def: TaskDef)
    ensures ResolveDef(names, def).name == def.name && ResolveDef(names, def).schedule == def.schedule
    ensures SplitRepo(def.name).None? ==> ResolveDef(names, def) == def
    ensures def.needs.Some? && SplitRepo(NeedsParts(def.needs.value).0).Some? ==>
              ResolveDef(names, def).needs == def.needs
    ensures def.spawn.Some? && SplitRepo(def.spawn.value).Some? ==> ResolveDef(names, def).spawn == def.spawn
    ensures def.needs.Some? <==> ResolveDef(names, def).needs.Some?
    ensures def.needs.Some? ==>
              NeedsParts(ResolveDef(names, def).needs.value).1 == NeedsParts(def.needs.value).1
    ensures ResolveDef(names, def).spawn != def.spawn ==> ResolveDef(names, def).spawn.value in names
    ensures ResolveDef(names, def).needs != def.needs ==>
              NeedsParts(ResolveDef(names, def).needs.value).0 in names
  {
    if SplitRepo(def.name).Some? && def.needs.Some? {
      ResolvesOwnRepoOnly(names, SplitRepo(def.name).value.0, def.needs.value);
    }
  }

  // -------------------------------------------------------------------------
  // Idempotence, exactly
  // -------------------------------------------------------------------------

  /** The catalog holds both `repo:<repo>/` and `repo:<repo>/repo:<repo>/`. */
  predicate HoldsTrap(names: set<string>, repo: string) {
    Qualify(repo, "") in names && Qualify(repo, Qualify(repo, "")) in names
  }

  /** The reference is empty and would be qualified twice. */
  predicate IsTrap(names: set<string>, def: TaskDef) {
    && SplitRepo(def.name).Some?
    && HoldsTrap(names, SplitRepo(def.name).value.0)
    && ((def.needs.Some? && NeedsParts(def.needs.value).0 == "") || def.spawn == Some(""))
  }

  lemma NeedsTwice(names: set<string>, repo: string, needs: string)
    requires repo != "" && '/' !in repo
    ensures var once := ResolveNeeds(names, repo, needs);
            ResolveNeeds(names, repo, once) == once <==> !(NeedsParts(needs).0 == "" && HoldsTrap(names, repo))
  {
    var source := NeedsParts(needs).0;
    RewrittenNeeds(repo, needs);
    NeedsPartsQualified(repo, needs);
    SplitQualified(repo, source);
    SplitQualified(repo, Qualify(repo, ""));
    if SplitRepo(source).None? && Qualify(repo, source) in names {
      var once := Prefix(repo) + needs;
      RewrittenNeeds(repo, once);
      assert |Prefix(repo) + once| > |once|;
    } else {
      assert source == "" ==> SplitRepo(source).None?;
    }
  }

  lemma SpawnTwice(names: set<string>, repo: string, spawn: string)
    requires repo != "" && '/' !in repo
    ensures var once := ResolveSpawn(names, repo, spawn);
            ResolveSpawn(names, repo, once) == once <==> !(spawn == "" && HoldsTrap(names, repo))
  {
    SplitQualified(repo, spawn);
    var once := Qualify(repo, spawn);
    assert |Qualify(repo, once)| > |once|;
  }

  lemma DefTwice(names: set<string>, def: TaskDef)
    ensures ResolveDef(names, ResolveDef(names, def)) == ResolveDef(names, def) <==> !IsTrap(names, def)
  {
    if SplitRepo(def.name).Some? {
      var (repo, rel) := SplitRepo(def.name).value;
      SplitIff(def.name, repo, rel);
      if def.needs.Some? { NeedsTwice(names, repo, def.needs.value); }
      if def.spawn.Some? { SpawnTwice(names, repo, def.spawn.value); }
    }
  }

  /** Resolving twice is resolving once, if and only if no definition refers to nothing in a trapped repo. */
  lemma IdempotentIff(defs: seq<TaskDef>)
    ensures Resolved(Resolved(defs)) == Resolved(defs) <==>
            forall i :: 0 <= i < |defs| ==> !IsTrap(Names(defs), defs[i])
  {
    var once := Resolved(defs);
    assert Names(once) == Names(defs) by {
      forall i | 0 <= i < |defs| ensures once[i].name == defs[i].name { ResolutionKeeps(Names(defs), defs[i]); }
      assert forall n :: n in Names(defs) ==> n in Names(once) by {
        forall n | n in Names(defs) ensures n in Names(once) {
          var i :| 0 <= i < |defs| && defs[i].name == n;
          assert once[i].name == n;
        }
      }
    }
    forall i | 0 <= i < |defs|
      ensures Resolved(once)[i] == once[i] <==> !IsTrap(Names(defs), defs[i])
    {
      DefTwice(Names(defs), defs[i]);
    }
    if Resolved(once) == once {
      forall i | 0 <= i < |defs| ensures !IsTrap(Names(defs), defs[i]) { assert Resolved(once)[i] == once[i]; }
    }
  }

  /** References that name something are resolved for good in one pass. */
  lemma NamedRefsAreIdempotent(defs: seq<TaskDef>)
    requires forall d :: d in defs ==>
               (d.needs.Some? ==> NeedsParts(d.needs.value).0 != "") && d.spawn != Some("")
    ensures Resolved(Resolved(defs)) == Resolved(defs)
  {
    IdempotentIff(defs);
  }

  /** So is every catalog of which no name ends in a slash, and a file's path never gives such a name. */
  lemma LoadedIsIdempotent(defs: seq<TaskDef>)
    requires forall i :: 0 <= i < |defs| ==> !EndsWith(defs[i].name, "/")
    ensures Resolved(Resolved(defs)) == Resolved(defs)
  {
    forall repo: string ensures Qualify(repo, "") !in Names(defs) {
      var name := Qualify(repo, "");
      assert name[|name| - 1..] == "/";
      assert EndsWith(name, "/");
    }
    IdempotentIff(defs);
  }

  /** A catalog on which a second pass goes on rewriting. */
  lemma EmptyReferenceIsRewrittenTwice()
    ensures var defs := [TaskDef("repo:r/a", None, None, Some("")), TaskDef("repo:r/", None, None, None),
                         TaskDef("repo:r/repo:r/", None, None, None)];
            Resolved(Resolved(defs)) != Resolved(defs)
  {
    var defs := [TaskDef("repo:r/a", None, None, Some("")), TaskDef("repo:r/", None, None, None),
                 TaskDef("repo:r/repo:r/", None, None, None)];
    SplitQualified("r", "a");
    assert Qualify("r", "a") == "repo:r/a";
    assert Qualify("r", "") == "repo:r/" == defs[1].name;
    assert Qualify("r", "repo:r/") == "repo:r/repo:r/" == defs[2].name;
    assert IsTrap(Names(defs), defs[0]);
    IdempotentIff(defs);
  }
}
