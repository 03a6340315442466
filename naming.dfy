/** The deterministic names the mapping derives from metamodel names. */
module Naming {
  import opened Wrappers
  import opened Strings

  /** English plural used for the `all<Plural>` query fields. */
  function Pluralize(n: string): (r: string)
    ensures EndsWith(n, "x") || EndsWith(n, "ss") ==> r == n + "es"
    ensures !(EndsWith(n, "x") || EndsWith(n, "ss")) && EndsWith(n, "y") ==> r == n[..|n| - 1] + "ies"
    ensures !(EndsWith(n, "x") || EndsWith(n, "ss") || EndsWith(n, "y")) ==> r == n + "s"
  {
    if EndsWith(n, "x") || EndsWith(n, "ss") then n + "es"
    else if EndsWith(n, "y") then n[..|n| - 1] + "ies"
    else n + "s"
  }

  /** The plural is one or two characters longer, ends in "s", and keeps the
      name (less a final "y") as its stem. */
  lemma PluralizeShape(n: string)
    ensures |n| + 1 <= |Pluralize(n)| <= |n| + 2
    ensures EndsWith(Pluralize(n), "s")
    ensures EndsWith(n, "y") && !EndsWith(n, "x") && !EndsWith(n, "ss")
            ==> Pluralize(n)[..|n| - 1] == n[..|n| - 1]
    ensures !(EndsWith(n, "y") && !EndsWith(n, "x") && !EndsWith(n, "ss"))
            ==> Pluralize(n)[..|n|] == n
  {
    var r := Pluralize(n);
    assert r[|r| - 1] == 's';
    assert r[|r| - 1..] == "s";
  }

  /** The plural rule on one name per branch. */
  lemma PluralizeExamples()
    ensures Pluralize("Box") == "Boxes"
    ensures Pluralize("Class") == "Classes"
    ensures Pluralize("Category") == "Categories"
    ensures Pluralize("Node") == "Nodes"
  {
    assert EndsWith("Box", "x");
    assert EndsWith("Class", "ss");
    assert !EndsWith("Category", "x") && !EndsWith("Category", "ss") && EndsWith("Category", "y");
    assert !EndsWith("Node", "x") && !EndsWith("Node", "ss") && !EndsWith("Node", "y");
  }

  /** The plural rule is not injective: two distinct class names can ask
      for the same `all<Plural>` query field. */
  lemma PluralizeCollides()
    ensures "Box" != "Boxe" && Pluralize("Box") == Pluralize("Boxe")
  {
    assert EndsWith("Box", "x");
    assert !EndsWith("Boxe", "x") && !EndsWith("Boxe", "ss") && !EndsWith("Boxe", "y");
  }

  function AllQueryFieldName(className: string): string
  {
    "all" + Pluralize(className)
  }

  function PaginatedCollectionOf(name: string): string
  {
    name + "PaginatedCollection"
  }

  function InputNameOfAllSubtypesOf(name: string): string
  {
    "AllSubtypesOf" + name
  }

  function AllConcreteSubtypesOf(name: string): string
  {
    "AllConcreteSubtypesOf" + name
  }

  /** `n.substring(0, 1).toUpperCase() + n.substring(1)`; `None` where `substring` throws. */
  function Capitalize(n: string): (r: Option<string>)
    ensures r.None? <==> |n| == 0
    ensures r.Some? ==> |r.value| == |n| && r.value[0] == UpperChar(n[0]) && r.value[1..] == n[1..]
  {
    if |n| == 0 then None else Some(ToUpperCase(n[..1]) + n[1..])
  }
}
