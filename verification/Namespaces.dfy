/** The namespaces of a workspace. */
module Namespaces {
  import opened Basics
  import opened Archives
  import opened Remaps

  const SUFFIXES: seq<string> := [
    "conv:fg", "conv:bg", "workbench_jobs", "g:source", "g:base_kg", "g:curated_kg", "g:projection", "projection_state",
    "projection_manifest", "usage_events", "usage_projection", "g:workflow", "wf:maintenance", "g:review",
    "maintenance_jobs", "projection_jobs", "g:wisdom", "g:policy"]

  const DERIVED := "derived_knowledge"

  function Suffixes(derived: bool): seq<string> {
    SUFFIXES + (if derived then [DERIVED] else [])
  }

  function InWorkspace(workspace: string): string -> string {
    (suffix: string) => Prefix(workspace) + suffix
  }

  /** `workspace_archive_namespaces`; `derived` says whether there is a derived-knowledge engine. */
  function WorkspaceNames(workspace: string, derived: bool): seq<string> {
    Map(InWorkspace(workspace), Suffixes(derived))
  }

  /** Length and two characters tell the suffixes apart. */
  function Print(s: string): (int, char, char) {
    if |s| > 3 then (|s|, s[2], s[|s| - 2]) else (|s|, ' ', ' ')
  }

  lemma SuffixesDistinct(derived: bool)
    ensures NoDup(Suffixes(derived))
  {
    var s := Suffixes(derived);
    forall i, j | 0 <= i < j < |s| ensures s[i] != s[j] {
      assert Print(s[i]) != Print(s[j]);
    }
  }

  lemma InWorkspaceStarts(workspace: string, suffix: string)
    ensures StartsWith(InWorkspace(workspace)(suffix), Prefix(workspace))
    ensures InWorkspace(workspace)(suffix)[|Prefix(workspace)|..] == suffix
  {
  }

  /** The namespaces of a workspace are pairwise distinct and all start with its prefix. */
  lemma NamesDistinct(workspace: string, derived: bool)
    ensures NoDup(WorkspaceNames(workspace, derived))
    ensures forall ns | ns in WorkspaceNames(workspace, derived) :: StartsWith(ns, Prefix(workspace))
  {
    var s, names := Suffixes(derived), WorkspaceNames(workspace, derived);
    SuffixesDistinct(derived);
    forall i | 0 <= i < |names| ensures StartsWith(names[i], Prefix(workspace)) && names[i][|Prefix(workspace)|..] == s[i] {
      InWorkspaceStarts(workspace, s[i]);
    }
  }

  /** Remapping carries the namespaces of one workspace to those of the other. */
  lemma NamesRemap(from: string, to: string, derived: bool, ns: string)
    requires ns in WorkspaceNames(from, derived)
    ensures RemapNamespace(ns, from, to) in WorkspaceNames(to, derived)
  {
    var i :| 0 <= i < |WorkspaceNames(from, derived)| && WorkspaceNames(from, derived)[i] == ns;
    InWorkspaceStarts(from, Suffixes(derived)[i]);
    assert RemapNamespace(ns, from, to) == WorkspaceNames(to, derived)[i];
  }

  lemma MoreNames(workspace: string, ns: string)
    requires ns in WorkspaceNames(workspace, false)
    ensures ns in WorkspaceNames(workspace, true)
  {
    var i :| 0 <= i < |WorkspaceNames(workspace, false)| && WorkspaceNames(workspace, false)[i] == ns;
    assert WorkspaceNames(workspace, true)[i] == ns;
  }
}
