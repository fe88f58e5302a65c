/** The legal page's accordion: one state field holding the id of the
    open section, or nothing. */
module Legal {
  import opened Js

  class Accordion {
    var openSection: Option<string>

    /** Every section starts closed. */
    constructor()
      ensures openSection == None
    {
      openSection := None;
    }

    /** A section is open exactly when the state holds its id. */
    predicate IsOpen(id: string)
      reads this
    {
      openSection == Some(id)
    }

    /** `toggleSection`: close the section if it is the open one, otherwise
        open it in place of any other. */
    method ToggleSection(id: string)
      modifies this
      ensures old(IsOpen(id)) ==> openSection == None
      ensures !old(IsOpen(id)) ==> openSection == Some(id)
    {
      openSection := if openSection == Some(id) then None else Some(id);
    }
  }

  /** Two sections are never open at once. */
  lemma AtMostOneOpen(a: Accordion, x: string, y: string)
    requires a.IsOpen(x) && a.IsOpen(y)
    ensures x == y
  {
  }

  /** From the initial state, a toggle opens the section and a second
      toggle of the same section closes everything again. */
  method ToggleTwice(id: string) returns (afterFirst: bool, afterSecond: Option<string>)
    ensures afterFirst
    ensures afterSecond == None
  {
    var a := new Accordion();
    a.ToggleSection(id);
    afterFirst := a.IsOpen(id);
    a.ToggleSection(id);
    afterSecond := a.openSection;
  }

  /** Opening another section closes the one that was open. */
  method SwitchSections(x: string, y: string) returns (xOpen: bool, yOpen: bool)
    requires x != y
    ensures !xOpen && yOpen
  {
    var a := new Accordion();
    a.ToggleSection(x);
    a.ToggleSection(y);
    xOpen, yOpen := a.IsOpen(x), a.IsOpen(y);
  }
}
