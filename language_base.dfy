/**
 * The language-specific operation bases: which repository languages the Python and the
 * JavaScript operations accept, and the base `execute`, which only refuses the rest.
 */
module LanguageBase {
  import opened Text
  import opened OperationBase
  import Core

  /** `PythonOperation.supports_language`: the language is "python" in any letter case. */
  predicate SupportsPython(language: string) {
    Lower(language) == "python"
  }

  /** `JavaScriptOperation.supports_language`: "javascript" or "typescript" in any letter case. */
  predicate SupportsJavaScript(language: string) {
    Lower(language) in ["javascript", "typescript"]
  }

  /** No language is accepted by both families. */
  lemma LanguagesDisjoint(language: string)
    ensures !(SupportsPython(language) && SupportsJavaScript(language))
  {
  }

  /** Acceptance ignores letter case. */
  lemma SupportIgnoresCase(a: string, b: string)
    requires Lower(a) == Lower(b)
    ensures SupportsPython(a) == SupportsPython(b) && SupportsJavaScript(a) == SupportsJavaScript(b)
  {
  }

  const PythonOperationName: string := "Python Operation"
  const JavaScriptOperationName: string := "JavaScript Operation"

  /** The base `execute` of both families: refuse a repository in another language, raise otherwise. */
  function BasePlan(supported: bool): Plan {
    if !supported then Refused else Unimplemented
  }

  function PythonBasePlan(repo: Core.Repository): Plan {
    BasePlan(SupportsPython(repo.language))
  }

  function JavaScriptBasePlan(repo: Core.Repository): Plan {
    BasePlan(SupportsJavaScript(repo.language))
  }

  /** The base `execute` runs nothing; it returns false exactly on a repository in another
      language and raises on every other. */
  lemma BaseGate(repo: Core.Repository, oracle: Shell.Oracle)
    ensures PlanOutcome(PythonBasePlan(repo), oracle) == Returned(false) <==> !SupportsPython(repo.language)
    ensures PlanOutcome(PythonBasePlan(repo), oracle) == NotImplemented <==> SupportsPython(repo.language)
    ensures PlanOutcome(JavaScriptBasePlan(repo), oracle) == Returned(false) <==> !SupportsJavaScript(repo.language)
    ensures PlanOutcome(JavaScriptBasePlan(repo), oracle) == NotImplemented <==> SupportsJavaScript(repo.language)
    ensures PlanLog(PythonBasePlan(repo), oracle) == [] && PlanLog(JavaScriptBasePlan(repo), oracle) == []
  {
  }

  /** The Python base refuses every repository the JavaScript base raises on, and the other way round. */
  lemma BasesNeverBothRaise(repo: Core.Repository)
    ensures !(PythonBasePlan(repo).Unimplemented? && JavaScriptBasePlan(repo).Unimplemented?)
  {
    LanguagesDisjoint(repo.language);
  }
}
