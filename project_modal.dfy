/** The "more projects" modal: each card's status badge colour, its row of
    technology chips, and its optional demo link. */
module ProjectModal {

  import opened Optional
  import opened Text

  /** One project entry. `demo` is optional. */
  datatype Project = Project(
    title: string, description: string, image: string,
    technologies: seq<string>, github: string, demo: Option<string>,
    category: string, date: string, status: string)

  // ---------------------------------------------------------------------
  // Status badge
  // ---------------------------------------------------------------------

  /** Two strings are equal once every character is lower-cased. */
  predicate EqualsIgnoreCase(a: string, b: string) {
    |a| == |b| && forall i :: 0 <= i < |a| ==> Lower(a[i]) == Lower(b[i])
  }

  /** Comparing the lower-cased string with an all-lower-case literal is the
      same as comparing the two ignoring case. */
  lemma LowerEqualsLiteral(s: string, lit: string)
    requires ToLower(lit) == lit
    ensures ToLower(s) == lit <==> EqualsIgnoreCase(s, lit)
  {
    if EqualsIgnoreCase(s, lit) {
      assert forall i :: 0 <= i < |s| ==> ToLower(s)[i] == lit[i] by {
        forall i | 0 <= i < |s| ensures ToLower(s)[i] == lit[i] {
          assert ToLower(lit)[i] == Lower(lit[i]);
        }
      }
    }
    if ToLower(s) == lit {
      forall i | 0 <= i < |s| ensures Lower(s[i]) == Lower(lit[i]) {
        assert ToLower(lit)[i] == Lower(lit[i]);
      }
    }
  }

  const Green := "bg-green-600"
  const Yellow := "bg-yellow-600"
  const Purple := "bg-purple-600"
  const Gray := "bg-gray-600"

  /** `getStatusColor`: a switch on the lower-cased status; `prototype` and
      every unrecognised status share the default grey. */
  function StatusColor(status: string): (r: string)
    ensures r == Green <==> EqualsIgnoreCase(status, "production")
    ensures r == Yellow <==> EqualsIgnoreCase(status, "beta")
    ensures r == Purple <==> EqualsIgnoreCase(status, "completed")
    ensures r == Gray <==> !EqualsIgnoreCase(status, "production") && !EqualsIgnoreCase(status, "beta")
                           && !EqualsIgnoreCase(status, "completed")
  {
    LowerEqualsLiteral(status, "production");
    LowerEqualsLiteral(status, "beta");
    LowerEqualsLiteral(status, "completed");
    var key := ToLower(status);
    if key == "production" then Green
    else if key == "beta" then Yellow
    else if key == "prototype" then Gray
    else if key == "completed" then Purple
    else Gray
  }

  /** Two statuses that differ only in letter case get the same colour. */
  lemma {:induction false} StatusColorIgnoresCase(a: string, b: string)
    requires EqualsIgnoreCase(a, b)
    ensures StatusColor(a) == StatusColor(b)
  {
    forall lit | lit in ["production", "beta", "completed"]
      ensures EqualsIgnoreCase(a, lit) <==> EqualsIgnoreCase(b, lit)
    {
    }
  }

  /** The statuses the project list uses, as written there. */
  lemma ListedStatusColors()
    ensures StatusColor("Production") == Green
    ensures StatusColor("Beta") == Yellow
    ensures StatusColor("Completed") == Purple
    ensures StatusColor("Prototype") == Gray
  {
    assert EqualsIgnoreCase("Production", "production");
    assert EqualsIgnoreCase("Beta", "beta");
    assert EqualsIgnoreCase("Completed", "completed");
    assert !EqualsIgnoreCase("Prototype", "completed") by {
      assert Lower("Prototype"[0]) != Lower("completed"[0]);
    }
  }

  // ---------------------------------------------------------------------
  // Technology chips
  // ---------------------------------------------------------------------

  /** At most this many technology chips are shown on a card. */
  const MaxChips := 3

  /** The chips on a card and the "+N" badge, when there is one. */
  datatype TechRow = TechRow(chips: seq<string>, overflow: Option<nat>)

  /** `technologies.slice(0, 3)` plus the `+{length - 3}` badge shown when
      `length > 3`. */
  function TechChips(technologies: seq<string>): (r: TechRow)
    ensures |r.chips| <= MaxChips
    ensures |r.chips| == MaxChips || |r.chips| == |technologies|
    ensures |r.chips| <= |technologies| && r.chips == technologies[..|r.chips|]
    ensures r.overflow.Some? <==> |technologies| > MaxChips
    ensures r.overflow.Some? ==> |r.chips| + r.overflow.value == |technologies|
  {
    var chips := if |technologies| <= MaxChips then technologies else technologies[..MaxChips];
    TechRow(chips, if |technologies| > MaxChips then Some(|technologies| - MaxChips) else None)
  }

  /** The chips and the badge account for every technology exactly once: the
      chips shown followed by the hidden ones make up the whole list, and the
      badge counts the hidden ones. */
  lemma ChipsAccountForAll(technologies: seq<string>)
    ensures var r := TechChips(technologies);
            r.chips + technologies[|r.chips|..] == technologies
            && |technologies[|r.chips|..]| == (if r.overflow.Some? then r.overflow.value else 0)
  {
    var r := TechChips(technologies);
    assert technologies[..|r.chips|] + technologies[|r.chips|..] == technologies;
  }

  // ---------------------------------------------------------------------
  // Demo link
  // ---------------------------------------------------------------------

  /** `project.demo && <a href={project.demo}>`: the link appears only for a
      defined, non-empty demo URL, and then points at that URL. */
  function DemoLink(demo: Option<string>): (r: Option<string>)
    ensures r.Some? <==> demo.Some? && demo.value != []
    ensures r.Some? ==> r.value == demo.value
  {
    if demo.Some? && demo.value != [] then demo else None
  }

  /** What one card of the modal shows. */
  datatype Card = Card(badge: string, chips: TechRow, code: string, demo: Option<string>)

  /** One project card: the badge colour, the chip row, the code link and the
      optional demo link. */
  function CardFor(p: Project): (c: Card)
    ensures c.badge == StatusColor(p.status)
    ensures c.chips == TechChips(p.technologies)
    ensures c.code == p.github
    ensures c.demo == DemoLink(p.demo)
  {
    Card(StatusColor(p.status), TechChips(p.technologies), p.github, DemoLink(p.demo))
  }

}
