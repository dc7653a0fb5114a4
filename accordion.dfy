/** The editor pane's per-name accordion state: which entries are shown expanded. */
module Accordion {

  /** Whether the accordion for `name` is open; a name never toggled counts as closed. */
  function IsExpanded(m: map<string, bool>, name: string): (open: bool)
    ensures name !in m ==> !open
    ensures name in m ==> open == m[name]
  {
    name in m && m[name]
  }

  /** The map `handleAccordionChange` builds: the flag for `name` negated, every other key kept. */
  function Toggle(m: map<string, bool>, name: string): (r: map<string, bool>)
    ensures name in r && IsExpanded(r, name) == !IsExpanded(m, name)
    ensures forall k :: k != name ==> (k in r <==> k in m)
    ensures forall k :: k != name && k in m ==> r[k] == m[k]
  {
    m[name := !IsExpanded(m, name)]
  }

  /** Toggling the same name twice shows every accordion as it was before. */
  lemma ToggleTwice(m: map<string, bool>, name: string)
    ensures forall k :: IsExpanded(Toggle(Toggle(m, name), name), k) == IsExpanded(m, k)
  {
  }

  /** Toggles of two different names commute. */
  lemma ToggleCommutes(m: map<string, bool>, a: string, b: string)
    requires a != b
    ensures Toggle(Toggle(m, a), b) == Toggle(Toggle(m, b), a)
  {
  }
}
