/**
 * components/AirdropCard.tsx: the colour of an airdrop's status badge,
 * chosen by looking for keywords in the lower-cased status.
 */
module AirdropCard {
  import opened Wrappers
  import opened Strs
  import Cmc

  const Gray := "bg-gray-600"
  const Green := "bg-green-600"
  const Red := "bg-red-600"
  const Blue := "bg-blue-600"

  /** `getStatusColor(status)`. */
  function StatusColor(status: Option<string>): (r: string)
    ensures r in {Gray, Green, Red, Blue}
    ensures !Truthy(status) ==> r == Gray
  {
    if !Truthy(status) then Gray else Classify(ToLower(status.value))
  }

  /** The keyword chain on the lower-cased status. */
  function Classify(lower: string): string {
    if Contains(lower, "active") || Contains(lower, "ongoing") then Green
    else if Contains(lower, "ended") || Contains(lower, "closed") then Red
    else if Contains(lower, "upcoming") || Contains(lower, "soon") then Blue
    else Gray
  }

  /**
   * The badge depends on the status only up to letter case: a status that
   * mentions "active" or "ongoing" is green whatever else it says, one that
   * mentions "ended" or "closed" (and neither of those) is red, and blue
   * needs "upcoming" or "soon" and none of the four.
   */
  lemma StatusColorRules(s: string)
    ensures var lower := ToLower(s);
      && (StatusColor(Some(s)) == Green <==> Contains(lower, "active") || Contains(lower, "ongoing"))
      && (StatusColor(Some(s)) == Red <==>
            !Contains(lower, "active") && !Contains(lower, "ongoing")
            && (Contains(lower, "ended") || Contains(lower, "closed")))
      && (StatusColor(Some(s)) == Blue <==>
            !Contains(lower, "active") && !Contains(lower, "ongoing")
            && !Contains(lower, "ended") && !Contains(lower, "closed")
            && (Contains(lower, "upcoming") || Contains(lower, "soon")))
  {
    if s == "" {
      assert !Contains(ToLower(s), "active") && !Contains(ToLower(s), "ongoing");
      assert !Contains(ToLower(s), "ended") && !Contains(ToLower(s), "closed");
      assert !Contains(ToLower(s), "upcoming") && !Contains(ToLower(s), "soon");
    }
  }

  lemma StatusColorIgnoresCase(a: string, b: string)
    requires ToLower(a) == ToLower(b)
    ensures StatusColor(Some(a)) == StatusColor(Some(b))
  {
    if a == "" || b == "" {
      assert |a| == |ToLower(a)| == |ToLower(b)| == |b|;
    }
  }

  /** The keyword test is a substring test, so "Inactive" is shown as active. */
  lemma InactiveShowsGreen()
    ensures StatusColor(Some("Inactive")) == Green
  {
    assert ToLower("Inactive") == "inactive";
    InactiveMentionsActive();
  }

  lemma InactiveMentionsActive()
    ensures Contains("inactive", "active")
  {
    var t := "inactive";
    assert StartsWith(t[2..], "active");
    assert t[1..][1..] == t[2..];
  }

  /**
   * The statuses the CoinMarketCap scraper derives from the dates, when the
   * page gives none, get their own colours: ended is red, started is green,
   * neither is blue.
   */
  lemma DerivedStatusColors(started: string, ended: string)
    ensures ended != "" ==> StatusColor(Some(Cmc.RowStatus("", started, ended))) == Red
    ensures ended == "" && started != "" ==> StatusColor(Some(Cmc.RowStatus("", started, ended))) == Green
    ensures ended == "" && started == "" ==> StatusColor(Some(Cmc.RowStatus("", started, ended))) == Blue
  {
    EndedIsRed();
    ActiveIsGreen();
    UpcomingIsBlue();
  }

  lemma EndedIsRed()
    ensures StatusColor(Some("Ended")) == Red
  {
    assert ToLower("Ended") == "ended";
    assert StartsWith("ended", "ended");
    NotIn("ended", "active");
    NotIn("ended", "ongoing");
  }

  lemma ActiveIsGreen()
    ensures StatusColor(Some("Active")) == Green
  {
    assert ToLower("Active") == "active";
    assert StartsWith("active", "active");
  }

  lemma UpcomingIsBlue()
    ensures StatusColor(Some("Upcoming")) == Blue
  {
    var t := ToLower("Upcoming");
    assert t == "upcoming";
    UpcomingClassified(t);
  }

  lemma UpcomingClassified(t: string)
    requires t == "upcoming"
    ensures Classify(t) == Blue
  {
    UpcomingLacksEarlier(t);
    UpcomingMentionsItself(t);
  }

  lemma UpcomingLacksEarlier(t: string)
    requires t == "upcoming"
    ensures !Contains(t, "active") && !Contains(t, "ongoing") && !Contains(t, "ended") && !Contains(t, "closed")
  {
    LacksChar(t, "active", 'a');
    LacksChar(t, "ended", 'e');
    LacksChar(t, "closed", 'd');
    var k := "ongoing";
    assert t[..|k|][0] == 'u' != k[0];
    assert t[1..][0] == 'p' != k[0];
    NotIn(t[1..], k);
  }

  lemma UpcomingMentionsItself(t: string)
    requires t == "upcoming"
    ensures Contains(t, "upcoming")
  {
    assert StartsWith(t, "upcoming");
  }

  /** A keyword with a character the text lacks does not occur in it. */
  lemma LacksChar(s: string, k: string, c: char)
    requires c in k && c !in s
    ensures !Contains(s, k)
  {
    if s != [] {
      LacksChar(s[1..], k, c);
    }
  }

  /** A keyword at least as long as the text occurs in it only if it equals it. */
  lemma NotIn(s: string, k: string)
    requires |s| <= |k| && s != k
    ensures !Contains(s, k)
  {
    if s != [] {
      NotIn(s[1..], k);
    }
  }
}
