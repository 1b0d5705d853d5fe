/**
 * The list the lost-and-found page starts with, and what the page shows for
 * it: the selector on its own, and the two searches "umbrella" and "hostel".
 */
module LostFoundList {
  import opened Text
  import opened Filtering
  import opened LostFound

  /** The items the page starts with, in list order. */
  const LostFoundItems: seq<Item> :=
    [BlueUmbrella, ScientificCalculator, BlackBackpack, WirelessEarbuds, StudentIdCard, WaterBottle]

  const BlueUmbrella := Item(1, BlueUmbrellaTitle, BlueUmbrellaDescription, "Library", Found, 20240110,
    Image("https://images.unsplash.com/photo-1534309466160-70b22cc6252c?w=300&h=200&fit=crop"))
  const ScientificCalculator := Item(2, ScientificCalculatorTitle, ScientificCalculatorDescription, "Lecture Hall 3", Lost, 20240109,
    Image("https://images.unsplash.com/photo-1564473185935-5da3e0754c9f?w=300&h=200&fit=crop"))
  const BlackBackpack := Item(3, BlackBackpackTitle, BlackBackpackDescription, "Canteen", Found, 20240108,
    Image("https://images.unsplash.com/photo-1553062407-98eeb64c6a62?w=300&h=200&fit=crop"))
  const WirelessEarbuds := Item(4, WirelessEarbudsTitle, WirelessEarbudsDescription, "Sports Complex", Lost, 20240107,
    Image("https://images.unsplash.com/photo-1590658268037-6bf12165a8df?w=300&h=200&fit=crop"))
  const StudentIdCard := Item(5, StudentIdCardTitle, StudentIdCardDescription, "Admin Block", Found, 20240106,
    NoImage)
  const WaterBottle := Item(6, WaterBottleTitle, WaterBottleDescription, "Hostel Block A", Lost, 20240105,
    NoImage)

  // Titles and descriptions, written as concatenations of short pieces; each
  // value is exactly the page's string.
  const BlueUmbrellaTitle: string := "Blue " + "Umbrella"
  const BlueUmbrellaDescription: string := "Found near " + "the main " + "library " + "entrance. " + "Has a " + "wooden " + "handle."
  const ScientificCalculatorTitle: string := "Scientific " + "Calculator"
  const ScientificCalculatorDescription: string := "Casio " + "fx-991ES " + "lost during " + "the physics " + "exam in " + "LH-3."
  const BlackBackpackTitle: string := "Black " + "Backpack"
  const BlackBackpackDescription: string := "Found in " + "the " + "canteen. " + "Contains " + "some " + "notebooks."
  const WirelessEarbudsTitle: string := "Wireless " + "Earbuds"
  const WirelessEarbudsDescription: string := "Lost my " + "white " + "wireless " + "earbuds " + "somewhere " + "near the " + "sports " + "complex."
  const StudentIdCardTitle: string := "Student ID " + "Card"
  const StudentIdCardDescription: string := "Found a " + "student ID " + "card " + "belonging " + "to CSE " + "department."
  const WaterBottleTitle: string := "Water Bottle"
  const WaterBottleDescription: string := "Lost my " + "blue steel " + "water " + "bottle with " + "NIT Goa " + "sticker."

  /** Filtering a six-element list tests each element once, in order. */
  lemma FilterSix(a: Item, b: Item, c: Item, d: Item, e: Item, f: Item, p: Item -> bool)
    ensures Filter([a, b, c, d, e, f], p) ==
      Keep(a, p) + (Keep(b, p) + (Keep(c, p) + (Keep(d, p) + (Keep(e, p) + Keep(f, p)))))
  {
    var s5 := [f];
    var s4 := [e] + s5;
    var s3 := [d] + s4;
    var s2 := [c] + s3;
    var s1 := [b] + s2;
    assert Filter(s5, p) == Keep(f, p) by {
      FilterCons(f, [], p);
      assert [f] + [] == [f];
    }
    FilterCons(e, s5, p);
    FilterCons(d, s4, p);
    FilterCons(c, s3, p);
    FilterCons(b, s2, p);
    FilterCons(a, s1, p);
    assert [a] + s1 == [a, b, c, d, e, f];
  }

  /** On start (empty search) the "lost" selector shows items 2, 4 and 6. */
  lemma LostItemsOnStart()
    ensures Ids(FilteredItems(LostFoundItems, "", "lost")) == [2, 4, 6]
  {
    EmptySearchFiltersByType(LostFoundItems, "lost");
    FilterSix(BlueUmbrella, ScientificCalculator, BlackBackpack, WirelessEarbuds, StudentIdCard, WaterBottle,
      (item: Item) => MatchesFilter(item, "lost"));
  }

  /** On start (empty search) the "found" selector shows items 1, 3 and 5. */
  lemma FoundItemsOnStart()
    ensures Ids(FilteredItems(LostFoundItems, "", "found")) == [1, 3, 5]
  {
    EmptySearchFiltersByType(LostFoundItems, "found");
    FilterSix(BlueUmbrella, ScientificCalculator, BlackBackpack, WirelessEarbuds, StudentIdCard, WaterBottle,
      (item: Item) => MatchesFilter(item, "found"));
  }

  lemma UmbrellaIsLowerCase() ensures ToLower("umbrella") == "umbrella" {}
  lemma HostelIsLowerCase() ensures ToLower("hostel") == "hostel" {}

  lemma UmbrellaPieceLowered() ensures ToLower("Umbrella") == "umbrella" {}

  lemma BlueUmbrellaMatchesUmbrella()
    ensures MatchesSearch(BlueUmbrella, "umbrella")
  {
    UmbrellaIsLowerCase();
    UmbrellaPieceLowered();
    ToLowerAppend("Blue ", "Umbrella");
    IncludesSuffix(ToLower("Blue "), "umbrella");
  }

  // Evidence, one fact per lemma, that a search word is absent from one field
  // of one item: a letter of the word missing in both cases, or the positions
  // of one letter, none of them followed by the next letter of the word.
  // Each fact is a lemma of its own so that every proof obligation mentions
  // one short literal and one character: the verifier settles such a fact by
  // unfolding the literal, and obligations that combine several literals or
  // letters grow far more expensive than the sum of their parts.
  lemma BlueUmbrellaTitleLacksLowerH() ensures 'h' !in BlueUmbrellaTitle {}
  lemma BlueUmbrellaTitleLacksUpperH() ensures 'H' !in BlueUmbrellaTitle {}
  lemma BlueUmbrellaTitleLacksHostel()
    ensures !Includes(ToLower(BlueUmbrellaTitle), "hostel")
  {
    BlueUmbrellaTitleLacksLowerH();
    BlueUmbrellaTitleLacksUpperH();
    ExcludesLetter(BlueUmbrellaTitle, "hostel", 0, 'h', 'H');
  }

  lemma BlueUmbrellaDescriptionLowerHAt() ensures OnlyAt(BlueUmbrellaDescription, 'h', {12, 38, 51}) {}
  lemma BlueUmbrellaDescriptionUpperHAt() ensures OnlyAt(BlueUmbrellaDescription, 'H', {12, 38, 51}) {}
  lemma BlueUmbrellaDescriptionNoOAfterH() ensures NotFollowedBy(BlueUmbrellaDescription, {12, 38, 51}, 'o') && NotFollowedBy(BlueUmbrellaDescription, {12, 38, 51}, 'O') {}
  lemma BlueUmbrellaDescriptionLacksHostel()
    ensures !Includes(ToLower(BlueUmbrellaDescription), "hostel")
  {
    BlueUmbrellaDescriptionLowerHAt();
    BlueUmbrellaDescriptionUpperHAt();
    BlueUmbrellaDescriptionNoOAfterH();
    ExcludesLetterPair(BlueUmbrellaDescription, "hostel", 0, 'h', 'H', 'o', 'O', {12, 38, 51});
  }

  lemma ScientificCalculatorTitleLacksLowerM() ensures 'm' !in ScientificCalculatorTitle {}
  lemma ScientificCalculatorTitleLacksUpperM() ensures 'M' !in ScientificCalculatorTitle {}
  lemma ScientificCalculatorTitleLacksUmbrella()
    ensures !Includes(ToLower(ScientificCalculatorTitle), "umbrella")
  {
    ScientificCalculatorTitleLacksLowerM();
    ScientificCalculatorTitleLacksUpperM();
    ExcludesLetter(ScientificCalculatorTitle, "umbrella", 1, 'm', 'M');
  }

  lemma ScientificCalculatorTitleLacksLowerH() ensures 'h' !in ScientificCalculatorTitle {}
  lemma ScientificCalculatorTitleLacksUpperH() ensures 'H' !in ScientificCalculatorTitle {}
  lemma ScientificCalculatorTitleLacksHostel()
    ensures !Includes(ToLower(ScientificCalculatorTitle), "hostel")
  {
    ScientificCalculatorTitleLacksLowerH();
    ScientificCalculatorTitleLacksUpperH();
    ExcludesLetter(ScientificCalculatorTitle, "hostel", 0, 'h', 'H');
  }

  lemma ScientificCalculatorDescriptionLacksLowerB() ensures 'b' !in ScientificCalculatorDescription {}
  lemma ScientificCalculatorDescriptionLacksUpperB() ensures 'B' !in ScientificCalculatorDescription {}
  lemma ScientificCalculatorDescriptionLacksUmbrella()
    ensures !Includes(ToLower(ScientificCalculatorDescription), "umbrella")
  {
    ScientificCalculatorDescriptionLacksLowerB();
    ScientificCalculatorDescriptionLacksUpperB();
    ExcludesLetter(ScientificCalculatorDescription, "umbrella", 2, 'b', 'B');
  }

  lemma ScientificCalculatorDescriptionLowerHAt() ensures OnlyAt(ScientificCalculatorDescription, 'h', {28, 32, 48}) {}
  lemma ScientificCalculatorDescriptionUpperHAt() ensures OnlyAt(ScientificCalculatorDescription, 'H', {28, 32, 48}) {}
  lemma ScientificCalculatorDescriptionNoOAfterH() ensures NotFollowedBy(ScientificCalculatorDescription, {28, 32, 48}, 'o') && NotFollowedBy(ScientificCalculatorDescription, {28, 32, 48}, 'O') {}
  lemma ScientificCalculatorDescriptionLacksHostel()
    ensures !Includes(ToLower(ScientificCalculatorDescription), "hostel")
  {
    ScientificCalculatorDescriptionLowerHAt();
    ScientificCalculatorDescriptionUpperHAt();
    ScientificCalculatorDescriptionNoOAfterH();
    ExcludesLetterPair(ScientificCalculatorDescription, "hostel", 0, 'h', 'H', 'o', 'O', {28, 32, 48});
  }

  lemma BlackBackpackTitleLacksLowerU() ensures 'u' !in BlackBackpackTitle {}
  lemma BlackBackpackTitleLacksUpperU() ensures 'U' !in BlackBackpackTitle {}
  lemma BlackBackpackTitleLacksUmbrella()
    ensures !Includes(ToLower(BlackBackpackTitle), "umbrella")
  {
    BlackBackpackTitleLacksLowerU();
    BlackBackpackTitleLacksUpperU();
    ExcludesLetter(BlackBackpackTitle, "umbrella", 0, 'u', 'U');
  }

  lemma BlackBackpackTitleLacksLowerH() ensures 'h' !in BlackBackpackTitle {}
  lemma BlackBackpackTitleLacksUpperH() ensures 'H' !in BlackBackpackTitle {}
  lemma BlackBackpackTitleLacksHostel()
    ensures !Includes(ToLower(BlackBackpackTitle), "hostel")
  {
    BlackBackpackTitleLacksLowerH();
    BlackBackpackTitleLacksUpperH();
    ExcludesLetter(BlackBackpackTitle, "hostel", 0, 'h', 'H');
  }

  lemma BlackBackpackDescriptionLacksLowerR() ensures 'r' !in BlackBackpackDescription {}
  lemma BlackBackpackDescriptionLacksUpperR() ensures 'R' !in BlackBackpackDescription {}
  lemma BlackBackpackDescriptionLacksUmbrella()
    ensures !Includes(ToLower(BlackBackpackDescription), "umbrella")
  {
    BlackBackpackDescriptionLacksLowerR();
    BlackBackpackDescriptionLacksUpperR();
    ExcludesLetter(BlackBackpackDescription, "umbrella", 3, 'r', 'R');
  }

  lemma BlackBackpackDescriptionLacksLowerL() ensures 'l' !in BlackBackpackDescription {}
  lemma BlackBackpackDescriptionLacksUpperL() ensures 'L' !in BlackBackpackDescription {}
  lemma BlackBackpackDescriptionLacksHostel()
    ensures !Includes(ToLower(BlackBackpackDescription), "hostel")
  {
    BlackBackpackDescriptionLacksLowerL();
    BlackBackpackDescriptionLacksUpperL();
    ExcludesLetter(BlackBackpackDescription, "hostel", 5, 'l', 'L');
  }

  lemma WirelessEarbudsTitleLacksLowerM() ensures 'm' !in WirelessEarbudsTitle {}
  lemma WirelessEarbudsTitleLacksUpperM() ensures 'M' !in WirelessEarbudsTitle {}
  lemma WirelessEarbudsTitleLacksUmbrella()
    ensures !Includes(ToLower(WirelessEarbudsTitle), "umbrella")
  {
    WirelessEarbudsTitleLacksLowerM();
    WirelessEarbudsTitleLacksUpperM();
    ExcludesLetter(WirelessEarbudsTitle, "umbrella", 1, 'm', 'M');
  }

  lemma WirelessEarbudsTitleLacksLowerH() ensures 'h' !in WirelessEarbudsTitle {}
  lemma WirelessEarbudsTitleLacksUpperH() ensures 'H' !in WirelessEarbudsTitle {}
  lemma WirelessEarbudsTitleLacksHostel()
    ensures !Includes(ToLower(WirelessEarbudsTitle), "hostel")
  {
    WirelessEarbudsTitleLacksLowerH();
    WirelessEarbudsTitleLacksUpperH();
    ExcludesLetter(WirelessEarbudsTitle, "hostel", 0, 'h', 'H');
  }

  lemma WirelessEarbudsDescriptionLowerUAt() ensures OnlyAt(WirelessEarbudsDescription, 'u', {27}) {}
  lemma WirelessEarbudsDescriptionUpperUAt() ensures OnlyAt(WirelessEarbudsDescription, 'U', {27}) {}
  lemma WirelessEarbudsDescriptionNoMAfterU() ensures NotFollowedBy(WirelessEarbudsDescription, {27}, 'm') && NotFollowedBy(WirelessEarbudsDescription, {27}, 'M') {}
  lemma WirelessEarbudsDescriptionLacksUmbrella()
    ensures !Includes(ToLower(WirelessEarbudsDescription), "umbrella")
  {
    WirelessEarbudsDescriptionLowerUAt();
    WirelessEarbudsDescriptionUpperUAt();
    WirelessEarbudsDescriptionNoMAfterU();
    ExcludesLetterPair(WirelessEarbudsDescription, "umbrella", 0, 'u', 'U', 'm', 'M', {27});
  }

  lemma WirelessEarbudsDescriptionLowerHAt() ensures OnlyAt(WirelessEarbudsDescription, 'h', {9, 36, 47}) {}
  lemma WirelessEarbudsDescriptionUpperHAt() ensures OnlyAt(WirelessEarbudsDescription, 'H', {9, 36, 47}) {}
  lemma WirelessEarbudsDescriptionNoOAfterH() ensures NotFollowedBy(WirelessEarbudsDescription, {9, 36, 47}, 'o') && NotFollowedBy(WirelessEarbudsDescription, {9, 36, 47}, 'O') {}
  lemma WirelessEarbudsDescriptionLacksHostel()
    ensures !Includes(ToLower(WirelessEarbudsDescription), "hostel")
  {
    WirelessEarbudsDescriptionLowerHAt();
    WirelessEarbudsDescriptionUpperHAt();
    WirelessEarbudsDescriptionNoOAfterH();
    ExcludesLetterPair(WirelessEarbudsDescription, "hostel", 0, 'h', 'H', 'o', 'O', {9, 36, 47});
  }

  lemma StudentIdCardTitleLacksLowerM() ensures 'm' !in StudentIdCardTitle {}
  lemma StudentIdCardTitleLacksUpperM() ensures 'M' !in StudentIdCardTitle {}
  lemma StudentIdCardTitleLacksUmbrella()
    ensures !Includes(ToLower(StudentIdCardTitle), "umbrella")
  {
    StudentIdCardTitleLacksLowerM();
    StudentIdCardTitleLacksUpperM();
    ExcludesLetter(StudentIdCardTitle, "umbrella", 1, 'm', 'M');
  }

  lemma StudentIdCardTitleLacksLowerH() ensures 'h' !in StudentIdCardTitle {}
  lemma StudentIdCardTitleLacksUpperH() ensures 'H' !in StudentIdCardTitle {}
  lemma StudentIdCardTitleLacksHostel()
    ensures !Includes(ToLower(StudentIdCardTitle), "hostel")
  {
    StudentIdCardTitleLacksLowerH();
    StudentIdCardTitleLacksUpperH();
    ExcludesLetter(StudentIdCardTitle, "hostel", 0, 'h', 'H');
  }

  lemma StudentIdCardDescriptionLowerUAt() ensures OnlyAt(StudentIdCardDescription, 'u', {2, 10}) {}
  lemma StudentIdCardDescriptionUpperUAt() ensures OnlyAt(StudentIdCardDescription, 'U', {2, 10}) {}
  lemma StudentIdCardDescriptionNoMAfterU() ensures NotFollowedBy(StudentIdCardDescription, {2, 10}, 'm') && NotFollowedBy(StudentIdCardDescription, {2, 10}, 'M') {}
  lemma StudentIdCardDescriptionLacksUmbrella()
    ensures !Includes(ToLower(StudentIdCardDescription), "umbrella")
  {
    StudentIdCardDescriptionLowerUAt();
    StudentIdCardDescriptionUpperUAt();
    StudentIdCardDescriptionNoMAfterU();
    ExcludesLetterPair(StudentIdCardDescription, "umbrella", 0, 'u', 'U', 'm', 'M', {2, 10});
  }

  lemma StudentIdCardDescriptionLacksLowerH() ensures 'h' !in StudentIdCardDescription {}
  lemma StudentIdCardDescriptionLacksUpperH() ensures 'H' !in StudentIdCardDescription {}
  lemma StudentIdCardDescriptionLacksHostel()
    ensures !Includes(ToLower(StudentIdCardDescription), "hostel")
  {
    StudentIdCardDescriptionLacksLowerH();
    StudentIdCardDescriptionLacksUpperH();
    ExcludesLetter(StudentIdCardDescription, "hostel", 0, 'h', 'H');
  }

  lemma WaterBottleTitleLacksLowerU() ensures 'u' !in WaterBottleTitle {}
  lemma WaterBottleTitleLacksUpperU() ensures 'U' !in WaterBottleTitle {}
  lemma WaterBottleTitleLacksUmbrella()
    ensures !Includes(ToLower(WaterBottleTitle), "umbrella")
  {
    WaterBottleTitleLacksLowerU();
    WaterBottleTitleLacksUpperU();
    ExcludesLetter(WaterBottleTitle, "umbrella", 0, 'u', 'U');
  }

  lemma WaterBottleTitleLacksLowerH() ensures 'h' !in WaterBottleTitle {}
  lemma WaterBottleTitleLacksUpperH() ensures 'H' !in WaterBottleTitle {}
  lemma WaterBottleTitleLacksHostel()
    ensures !Includes(ToLower(WaterBottleTitle), "hostel")
  {
    WaterBottleTitleLacksLowerH();
    WaterBottleTitleLacksUpperH();
    ExcludesLetter(WaterBottleTitle, "hostel", 0, 'h', 'H');
  }

  lemma WaterBottleDescriptionLowerUAt() ensures OnlyAt(WaterBottleDescription, 'u', {10}) {}
  lemma WaterBottleDescriptionUpperUAt() ensures OnlyAt(WaterBottleDescription, 'U', {10}) {}
  lemma WaterBottleDescriptionNoMAfterU() ensures NotFollowedBy(WaterBottleDescription, {10}, 'm') && NotFollowedBy(WaterBottleDescription, {10}, 'M') {}
  lemma WaterBottleDescriptionLacksUmbrella()
    ensures !Includes(ToLower(WaterBottleDescription), "umbrella")
  {
    WaterBottleDescriptionLowerUAt();
    WaterBottleDescriptionUpperUAt();
    WaterBottleDescriptionNoMAfterU();
    ExcludesLetterPair(WaterBottleDescription, "umbrella", 0, 'u', 'U', 'm', 'M', {10});
  }

  lemma WaterBottleDescriptionLowerHAt() ensures OnlyAt(WaterBottleDescription, 'h', {35}) {}
  lemma WaterBottleDescriptionUpperHAt() ensures OnlyAt(WaterBottleDescription, 'H', {35}) {}
  lemma WaterBottleDescriptionNoOAfterH() ensures NotFollowedBy(WaterBottleDescription, {35}, 'o') && NotFollowedBy(WaterBottleDescription, {35}, 'O') {}
  lemma WaterBottleDescriptionLacksHostel()
    ensures !Includes(ToLower(WaterBottleDescription), "hostel")
  {
    WaterBottleDescriptionLowerHAt();
    WaterBottleDescriptionUpperHAt();
    WaterBottleDescriptionNoOAfterH();
    ExcludesLetterPair(WaterBottleDescription, "hostel", 0, 'h', 'H', 'o', 'O', {35});
  }

  lemma BlueUmbrellaMissesHostel()
    ensures !MatchesSearch(BlueUmbrella, "hostel")
  {
    BlueUmbrellaTitleLacksHostel();
    BlueUmbrellaDescriptionLacksHostel();
    HostelIsLowerCase();
    MissesSearch(BlueUmbrella, "hostel");
  }

  lemma ScientificCalculatorMissesUmbrella()
    ensures !MatchesSearch(ScientificCalculator, "umbrella")
  {
    ScientificCalculatorTitleLacksUmbrella();
    ScientificCalculatorDescriptionLacksUmbrella();
    UmbrellaIsLowerCase();
    MissesSearch(ScientificCalculator, "umbrella");
  }

  lemma ScientificCalculatorMissesHostel()
    ensures !MatchesSearch(ScientificCalculator, "hostel")
  {
    ScientificCalculatorTitleLacksHostel();
    ScientificCalculatorDescriptionLacksHostel();
    HostelIsLowerCase();
    MissesSearch(ScientificCalculator, "hostel");
  }

  lemma BlackBackpackMissesUmbrella()
    ensures !MatchesSearch(BlackBackpack, "umbrella")
  {
    BlackBackpackTitleLacksUmbrella();
    BlackBackpackDescriptionLacksUmbrella();
    UmbrellaIsLowerCase();
    MissesSearch(BlackBackpack, "umbrella");
  }

  lemma BlackBackpackMissesHostel()
    ensures !MatchesSearch(BlackBackpack, "hostel")
  {
    BlackBackpackTitleLacksHostel();
    BlackBackpackDescriptionLacksHostel();
    HostelIsLowerCase();
    MissesSearch(BlackBackpack, "hostel");
  }

  lemma WirelessEarbudsMissesUmbrella()
    ensures !MatchesSearch(WirelessEarbuds, "umbrella")
  {
    WirelessEarbudsTitleLacksUmbrella();
    WirelessEarbudsDescriptionLacksUmbrella();
    UmbrellaIsLowerCase();
    MissesSearch(WirelessEarbuds, "umbrella");
  }

  lemma WirelessEarbudsMissesHostel()
    ensures !MatchesSearch(WirelessEarbuds, "hostel")
  {
    WirelessEarbudsTitleLacksHostel();
    WirelessEarbudsDescriptionLacksHostel();
    HostelIsLowerCase();
    MissesSearch(WirelessEarbuds, "hostel");
  }

  lemma StudentIdCardMissesUmbrella()
    ensures !MatchesSearch(StudentIdCard, "umbrella")
  {
    StudentIdCardTitleLacksUmbrella();
    StudentIdCardDescriptionLacksUmbrella();
    UmbrellaIsLowerCase();
    MissesSearch(StudentIdCard, "umbrella");
  }

  lemma StudentIdCardMissesHostel()
    ensures !MatchesSearch(StudentIdCard, "hostel")
  {
    StudentIdCardTitleLacksHostel();
    StudentIdCardDescriptionLacksHostel();
    HostelIsLowerCase();
    MissesSearch(StudentIdCard, "hostel");
  }

  lemma WaterBottleMissesUmbrella()
    ensures !MatchesSearch(WaterBottle, "umbrella")
  {
    WaterBottleTitleLacksUmbrella();
    WaterBottleDescriptionLacksUmbrella();
    UmbrellaIsLowerCase();
    MissesSearch(WaterBottle, "umbrella");
  }

  lemma WaterBottleMissesHostel()
    ensures !MatchesSearch(WaterBottle, "hostel")
  {
    WaterBottleTitleLacksHostel();
    WaterBottleDescriptionLacksHostel();
    HostelIsLowerCase();
    MissesSearch(WaterBottle, "hostel");
  }

  /** Searching "umbrella" across both types finds exactly the blue umbrella (id 1). */
  lemma UmbrellaFindsOnlyItemOne()
    ensures FilteredItems(LostFoundItems, "umbrella", AllTypes) == [BlueUmbrella]
    ensures Ids(FilteredItems(LostFoundItems, "umbrella", AllTypes)) == [1]
  {
    BlueUmbrellaMatchesUmbrella();
    ScientificCalculatorMissesUmbrella();
    BlackBackpackMissesUmbrella();
    WirelessEarbudsMissesUmbrella();
    StudentIdCardMissesUmbrella();
    WaterBottleMissesUmbrella();
    FilterSix(BlueUmbrella, ScientificCalculator, BlackBackpack, WirelessEarbuds, StudentIdCard, WaterBottle,
      (item: Item) => Matches(item, "umbrella", AllTypes));
  }

  /**
   * Item 6 was lost in "Hostel Block A", yet searching "hostel" finds
   * nothing: the location is not one of the searched fields.
   */
  lemma HostelFindsNothing()
    ensures WaterBottle in LostFoundItems && WaterBottle.location == "Hostel Block A"
    ensures FilteredItems(LostFoundItems, "hostel", AllTypes) == []
  {
    BlueUmbrellaMissesHostel();
    ScientificCalculatorMissesHostel();
    BlackBackpackMissesHostel();
    WirelessEarbudsMissesHostel();
    StudentIdCardMissesHostel();
    WaterBottleMissesHostel();
    FilterSix(BlueUmbrella, ScientificCalculator, BlackBackpack, WirelessEarbuds, StudentIdCard, WaterBottle,
      (item: Item) => Matches(item, "hostel", AllTypes));
  }
}
