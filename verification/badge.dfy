/** `badgeClassForCategory` of js/app.js: the colour tag of a category label. */
module Badge {
  import opened Text

  datatype BadgeClass = Food | Transport | Entertainment | Salary | Shopping | Misc

  /** Position of a tag's rule in the ordered rule list; `Misc` comes after every rule. */
  function Rank(b: BadgeClass): nat
  {
    match b
    case Food => 0
    case Transport => 1
    case Entertainment => 2
    case Salary => 3
    case Shopping => 4
    case Misc => 5
  }

  /** The substring that selects a tag (`Misc` has none and gets the empty string). */
  function Keyword(b: BadgeClass): string
  {
    match b
    case Food => "food"
    case Transport => "transport"
    case Entertainment => "entertain"
    case Salary => "salary"
    case Shopping => "shop"
    case Misc => ""
  }

  /**
   * The tag of a category label; a missing category is the empty label.
   * The label is lower-cased and the rules are tried in order: the chosen
   * rule's keyword occurs, and no earlier rule's keyword does.
   */
  function BadgeClassForCategory(cat: string): (r: BadgeClass)
    ensures r != Misc ==> Contains(ToLower(cat), Keyword(r))
    ensures forall b :: Rank(b) < Rank(r) ==> !Contains(ToLower(cat), Keyword(b))
  {
    var c := ToLower(cat);
    if Contains(c, "food") then Food
    else if Contains(c, "transport") then Transport
    else if Contains(c, "entertain") then Entertainment
    else if Contains(c, "salary") then Salary
    else if Contains(c, "shop") then Shopping
    else Misc
  }

  lemma LowerIdempotent(s: string)
    ensures ToLower(ToLower(s)) == ToLower(s)
  {
  }

  /** Upper and lower case make no difference to the tag. */
  lemma BadgeIgnoresCase(cat: string)
    ensures BadgeClassForCategory(ToLower(cat)) == BadgeClassForCategory(cat)
  {
    LowerIdempotent(cat);
  }

  /** A missing or empty category is "misc". */
  lemma EmptyCategoryIsMisc()
    ensures BadgeClassForCategory("") == Misc
  {
  }

  /** A keyword with a character the label lacks does not occur in it. */
  lemma MissingCharExcludes(s: string, sub: string, k: nat)
    requires k < |sub| && sub[k] !in s
    ensures !Contains(s, sub)
  {
    if Contains(s, sub) {
      ContainsChars(s, sub);
    }
  }

  lemma LowerGroceryShopping()
    ensures ToLower("Grocery Shopping") == "grocery shopping"
  {
  }

  /** A label holding "shop" but none of the earlier keywords is "shopping". */
  lemma GroceryShoppingIsShopping()
    ensures BadgeClassForCategory("Grocery Shopping") == Shopping
  {
    LowerGroceryShopping();
    var c := "grocery shopping";
    assert OccursAt(c, "shop", 8);
    MissingCharExcludes(c, "food", 0);
    MissingCharExcludes(c, "transport", 0);
    MissingCharExcludes(c, "entertain", 2);
    MissingCharExcludes(c, "salary", 1);
  }

  /** Rule order decides between keywords: "food" wins over "salary". */
  lemma FoodRuleComesFirst()
    ensures BadgeClassForCategory("Salary food") == Food
  {
    var c := ToLower("Salary food");
    assert c == "salary food";
    assert OccursAt(c, "food", 7);
  }
}
