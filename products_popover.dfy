/** The product picker of the analytics page (`ProductsPopover`): the "All products" checkbox,
    the per-product checkboxes and the "Toggle selected" button, each a map over the options. */
module ProductsPopover {

  /** A product option; `selected` is its checkbox. */
  datatype ProductOption = ProductOption(id: string, name: string, uniquePermalink: string, selected: bool)

  /** The number of selected options (`filter(selected).length`). */
  function CountSelected(ps: seq<ProductOption>): (n: nat)
    ensures n <= |ps|
    ensures n == |ps| <==> forall i :: 0 <= i < |ps| ==> ps[i].selected
    ensures n == 0 <==> forall i :: 0 <= i < |ps| ==> !ps[i].selected
    decreases |ps|
  {
    if |ps| == 0 then 0
    else
      var rest := CountSelected(ps[..|ps| - 1]);
      assert forall i :: 0 <= i < |ps| - 1 ==> ps[..|ps| - 1][i] == ps[i];
      rest + if ps[|ps| - 1].selected then 1 else 0
  }

  /** The "All products" box is checked exactly when every option is selected; so it is checked
      for an empty list. */
  function AllChecked(ps: seq<ProductOption>): (r: bool)
    ensures r <==> forall i :: 0 <= i < |ps| ==> ps[i].selected
    ensures |ps| == 0 ==> r
  {
    CountSelected(ps) == |ps|
  }

  /** Changing the "All products" box: every option takes the box's value; nothing else changes. */
  function SetAll(ps: seq<ProductOption>, checked: bool): (r: seq<ProductOption>)
    ensures |r| == |ps|
    ensures forall i :: 0 <= i < |r| ==> r[i].selected == checked && r[i].(selected := ps[i].selected) == ps[i]
  {
    seq(|ps|, i requires 0 <= i < |ps| => ps[i].(selected := checked))
  }

  /** Changing one product's box: every option with that permalink takes the box's value; the
      others are unchanged. */
  function SetByPermalink(ps: seq<ProductOption>, permalink: string, checked: bool): (r: seq<ProductOption>)
    ensures |r| == |ps|
    ensures forall i :: 0 <= i < |r| && ps[i].uniquePermalink != permalink ==> r[i] == ps[i]
    ensures forall i :: 0 <= i < |r| && ps[i].uniquePermalink == permalink ==>
              r[i].selected == checked && r[i].(selected := ps[i].selected) == ps[i]
  {
    seq(|ps|, i requires 0 <= i < |ps| =>
      if ps[i].uniquePermalink == permalink then ps[i].(selected := checked) else ps[i])
  }

  /** "Toggle selected": every option's box is flipped; nothing else changes. */
  function ToggleAll(ps: seq<ProductOption>): (r: seq<ProductOption>)
    ensures |r| == |ps|
    ensures forall i :: 0 <= i < |r| ==> r[i].selected != ps[i].selected && r[i].(selected := ps[i].selected) == ps[i]
  {
    seq(|ps|, i requires 0 <= i < |ps| => ps[i].(selected := !ps[i].selected))
  }

  /** Checking or unchecking "All products" leaves the box in that state (for a non-empty list). */
  lemma SetAllChecks(ps: seq<ProductOption>, checked: bool)
    ensures AllChecked(SetAll(ps, checked)) <==> checked || |ps| == 0
  {
    if !checked && |ps| > 0 {
      assert !SetAll(ps, checked)[0].selected;
    }
  }

  /** Toggling twice gives back the original list. */
  lemma ToggleAllInvolution(ps: seq<ProductOption>)
    ensures ToggleAll(ToggleAll(ps)) == ps
  {
  }

  /** Toggling selects exactly the options that were not selected. */
  lemma {:induction false} ToggleAllCount(ps: seq<ProductOption>)
    ensures CountSelected(ToggleAll(ps)) == |ps| - CountSelected(ps)
    decreases |ps|
  {
    if |ps| > 0 {
      var p := ps[..|ps| - 1];
      ToggleAllCount(p);
      assert ToggleAll(ps)[..|ps| - 1] == ToggleAll(p);
    }
  }

  /** Checking a product's box selects every option with its permalink, and checking the last
      unselected option checks "All products". */
  lemma SetByPermalinkCompletes(ps: seq<ProductOption>, permalink: string)
    requires forall i :: 0 <= i < |ps| && ps[i].uniquePermalink != permalink ==> ps[i].selected
    ensures AllChecked(SetByPermalink(ps, permalink, true))
  {
  }

  /** Unchecking a product's box that some option has unchecks "All products". */
  lemma SetByPermalinkUnchecks(ps: seq<ProductOption>, permalink: string, i: nat)
    requires i < |ps| && ps[i].uniquePermalink == permalink
    ensures !AllChecked(SetByPermalink(ps, permalink, false))
  {
    assert !SetByPermalink(ps, permalink, false)[i].selected;
  }
}
