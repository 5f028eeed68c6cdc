/** What the account report promises: the billing lines, which optional
    lines each bot shows, the country finding, and the order and selection
    of the "Label: value" lines. */
module AccountLaws {
  import opened Wrappers
  import opened Text
  import opened Account

  // ---------------------------------------------------------------------
  // Billing lines

  /** A header and two single-line texts joined by newlines split back into
      the two texts after the header. */
  lemma InfoLines(b: string, u: string)
    requires NoBreak(b) && NoBreak(u) && u != []
    ensures SplitLines(InfoHeader + "\n" + b + "\n" + u)[1..] == [b, u]
  {
    var ls := [InfoHeader, b, u];
    assert NoBreak(InfoHeader);
    assert forall i :: 0 <= i < |ls| ==> NoBreak(ls[i]);
    assert Join(ls[2..], '\n') == u;
    assert Join(ls[1..], '\n') == b + "\n" + u;
    assert Join(ls, '\n') == InfoHeader + "\n" + b + "\n" + u;
    SplitLinesJoin(ls);
  }

  lemma ShoutNoBreak(s: string)
    requires NoBreak(s)
    ensures NoBreak(Shout(s))
  {
    forall i | 0 <= i < |s| ensures !IsLineBreak(Shout(s)[i]) {
      assert Spaced(s)[i] == (if s[i] == '_' then ' ' else s[i]);
    }
  }

  lemma BulletedNoBreak(s: string)
    requires NoBreak(s)
    ensures NoBreak(Bulleted(s))
  {
    forall i | 0 <= i < |s| ensures !IsLineBreak(Bulleted(s)[i]) {
    }
  }

  lemma ConcatNoBreak(a: string, b: string)
    requires NoBreak(a) && NoBreak(b)
    ensures NoBreak(a + b)
  {
    forall i | 0 <= i < |a + b| ensures !IsLineBreak((a + b)[i]) {
      if i >= |a| {
        assert (a + b)[i] == b[i - |a|];
      }
    }
  }

  /** Third-party billing yields exactly two lines, "Billed: Third party"
      and the upper-cased payment method. */
  lemma ThirdPartyLines(l: Lookups, ext: Externals)
    requires ThirdPartyBilled(l) && NoBreak(l.thirdPartyMethod.value)
    ensures AccountInfo(l, ext).Ok?
    ensures BilledUsing(AccountInfo(l, ext).value) ==
            ["Billed: Third party", "Using: " + Shout(l.thirdPartyMethod.value)]
  {
    var m := l.thirdPartyMethod.value;
    ShoutNoBreak(m);
    ThirdPartyNoBreak();
    ConcatNoBreak("Using: ", Shout(m));
    ThirdPartyShape(InfoHeader, Shout(m));
    InfoLines("Billed: Third party", "Using: " + Shout(m));
  }

  lemma ThirdPartyNoBreak()
    ensures NoBreak("Billed: Third party") && NoBreak("Using: ")
  {
  }

  lemma ThirdPartyShape(h: string, m: string)
    ensures h + "\nBilled: " + "Third party" + "\nUsing: " + m
         == h + "\n" + "Billed: Third party" + "\n" + ("Using: " + m)
  {
    assert "\nBilled: " + "Third party" == "\n" + "Billed: Third party";
    assert "\nUsing: " == "\n" + "Using: ";
  }

  /** Card billing yields exactly two lines: the upper-cased method, then
      the card type (the method when no type was found) and the display
      text with its asterisks turned into bullets. */
  lemma CardLines(l: Lookups, ext: Externals, payment: string, raw: string, display: string)
    requires !ThirdPartyBilled(l) && l.card == Some((payment, raw)) && ext.unescape(raw) == Some(display)
    requires NoBreak(payment) && NoBreak(l.cardType.GetOr(payment)) && NoBreak(display)
    ensures AccountInfo(l, ext).Ok?
    ensures BilledUsing(AccountInfo(l, ext).value) ==
            ["Billed: " + Shout(payment), "Using: " + Shout(l.cardType.GetOr(payment)) + " " + Bulleted(display)]
  {
    var kind := l.cardType.GetOr(payment);
    var b := "Billed: " + Shout(payment);
    var u := "Using: " + Shout(kind) + " " + Bulleted(display);
    BilledNoBreak(payment);
    UsingNoBreak(kind, display);
    CardInfoShape(InfoHeader, Shout(payment), Shout(kind), Bulleted(display));
    InfoLines(b, u);
  }

  lemma BilledNoBreak(payment: string)
    requires NoBreak(payment)
    ensures NoBreak("Billed: " + Shout(payment))
  {
    ShoutNoBreak(payment);
    assert NoBreak("Billed: ");
    ConcatNoBreak("Billed: ", Shout(payment));
  }

  lemma UsingNoBreak(kind: string, display: string)
    requires NoBreak(kind) && NoBreak(display)
    ensures NoBreak("Using: " + Shout(kind) + " " + Bulleted(display))
  {
    ShoutNoBreak(kind);
    BulletedNoBreak(display);
    assert NoBreak("Using: ") && NoBreak(" ");
    ConcatNoBreak("Using: ", Shout(kind));
    ConcatNoBreak("Using: " + Shout(kind), " ");
    ConcatNoBreak("Using: " + Shout(kind) + " ", Bulleted(display));
  }

  lemma CardInfoShape(h: string, p: string, k: string, d: string)
    ensures h + "\nBilled: " + p + "\nUsing: " + k + " " + d
         == h + "\n" + ("Billed: " + p) + "\n" + ("Using: " + k + " " + d)
  {
    assert "\nBilled: " == "\n" + "Billed: ";
    assert "\nUsing: " == "\n" + "Using: ";
  }

  /** The third-party flag alone is not enough: without a payment method
      the card branch decides, exactly as if the flag were `false`. */
  lemma ThirdPartyNeedsMethod(l: Lookups, ext: Externals)
    requires l.thirdParty == Some(true) && l.thirdPartyMethod.None?
    ensures AccountInfo(l, ext) == AccountInfo(l.(thirdParty := Some(false)), ext)
  {
  }

  // ---------------------------------------------------------------------
  // Field renderings

  /** The plan is "Active" exactly when the account is not on hold. */
  lemma PlanStatusActive(hold: bool)
    ensures PlanStatus(hold) == "Active" <==> !hold
    ensures PlanStatus(hold) == "On Hold" <==> hold
  {
    assert Capitalized(true) == "True";
    assert "True" != "False" by { assert "True"[0] != "False"[0]; }
  }

  /** The `(true|false)` captures render as Python's booleans. */
  lemma CapitalizedBooleans()
    ensures Capitalized(true) == "True" && Capitalized(false) == "False"
  {
    assert Capitalize("true") == "True";
    assert Capitalize("false") == "False";
  }

  /** A word of ASCII letters. */
  ghost predicate Letters(w: string) {
    forall i :: 0 <= i < |w| ==> IsAsciiLetter(w[i])
  }

  /** A status of two words joined by '_' renders as the two words
      capitalised, separated by a space. */
  lemma TwoWordStatus(a: string, b: string)
    requires a != [] && b != [] && Letters(a) && Letters(b)
    ensures MembershipText(a + "_" + b) == Capitalize(a) + " " + Capitalize(b)
  {
    var s := a + "_" + b;
    var sp := Spaced(s);
    var t := Capitalize(a) + " " + Capitalize(b);
    assert |sp| == |t|;
    forall i | 0 <= i < |s| ensures Title(sp)[i] == t[i] {
      assert Title(sp)[i] == TitleCharAt(sp, i);
      if i < |a| {
        assert sp[i] == a[i];
        if i > 0 { assert sp[i - 1] == a[i - 1]; }
      } else if i == |a| {
        assert sp[i] == ' ';
      } else {
        assert sp[i] == b[i - |a| - 1];
        assert t[i] == Capitalize(b)[i - |a| - 1];
        if i > |a| + 1 { assert sp[i - 1] == b[i - |a| - 2]; } else { assert sp[i - 1] == ' '; }
      }
    }
  }

  lemma CapitalizeWords()
    ensures Capitalize("CURRENT") == "Current" && Capitalize("MEMBER") == "Member"
    ensures Letters("CURRENT") && Letters("MEMBER")
  {
    CapitalizeIs("CURRENT", "Current");
    CapitalizeIs("MEMBER", "Member");
  }

  /** A text whose first character is the upper-cased first character and
      whose other characters are lower-cased is the capitalised text. */
  lemma CapitalizeIs(s: string, r: string)
    requires |s| == |r| && |s| > 0 && r[0] == UpperChar(s[0])
    requires forall i :: 0 < i < |s| ==> r[i] == LowerChar(s[i])
    ensures Capitalize(s) == r
  {
  }

  /** The status CURRENT_MEMBER renders as "Current Member". */
  lemma CurrentMember(a: string, b: string)
    requires a == "CURRENT" && b == "MEMBER"
    ensures MembershipText(a + "_" + b) == Capitalize(a) + " " + Capitalize(b)
    ensures Capitalize(a) + " " + Capitalize(b) == "Current Member"
  {
    CapitalizeWords();
    TwoWordStatus(a, b);
  }

  /** The "Can change plan" line: absent in bot.py; always present in
      bot2.py, reading "Unknown" exactly when nothing was found; present in
      bot6.py and bot7.py exactly when something was found. */
  lemma ChangePlanLine(v: Variant, e: Edition, l: Lookups, ext: Externals)
    ensures Labels(v)[4] == "Can change plan"
    ensures v == Bot ==> Fields(v, e, l, ext)[4] == Ok(None)
    ensures v == Bot2 ==> Fields(v, e, l, ext)[4].value.Some?
    ensures v == Bot2 ==> (Fields(v, e, l, ext)[4] == Ok(Some("Unknown")) <==> l.canChangePlan.None?)
    ensures (v == Bot6 || v == Bot7) ==> (Fields(v, e, l, ext)[4].value.Some? <==> l.canChangePlan.Some?)
  {
    CapitalizedBooleans();
    assert "True" != "Unknown" by { assert "True"[0] != "Unknown"[0]; }
    assert "False" != "Unknown" by { assert "False"[0] != "Unknown"[0]; }
  }

  /** bot.py says "Extra Member: Yes" exactly when the extra-member flag is
      `true`; the other bots show the flag itself under "Extra Slots". */
  lemma ExtraMemberLine(v: Variant, e: Edition, l: Lookups, ext: Externals)
    ensures v == Bot ==> Labels(v)[7] == "Extra Member"
    ensures v == Bot ==> (Fields(v, e, l, ext)[7] == Ok(Some("Yes")) <==> l.extraMember == Some(true))
    ensures v == Bot ==> (Fields(v, e, l, ext)[7] == Ok(Some("No")) <==> l.extraMember == Some(false))
    ensures v != Bot ==> Labels(v)[7] == "Extra Slots"
    ensures v != Bot && l.extraMember.Some? ==> Fields(v, e, l, ext)[7] == Ok(Some(Capitalized(l.extraMember.value)))
  {
    CapitalizedBooleans();
    assert "Yes" != "No";
  }

  /** bot.py shows the first name as captured, whatever the decoder does;
      the other bots decode it, and a name the decoder rejects raises. */
  lemma NameDecoding(v: Variant, e: Edition, l: Lookups, ext1: Externals, ext2: Externals)
    ensures v == Bot ==> Fields(v, e, l, ext1)[10] == Fields(v, e, l, ext2)[10]
    ensures v != Bot && l.firstName.Some? && l.firstName.value != [] ==>
            (Fields(v, e, l, ext1)[10].Raises? <==> ext1.unescape(l.firstName.value).None?)
  {
  }

  /** bot6.py and bot7.py show the plan as captured; bot.py and bot2.py
      decode it, and a plan the decoder rejects raises. */
  lemma PlanDecoding(v: Variant, e: Edition, l: Lookups, ext1: Externals, ext2: Externals)
    ensures (v == Bot6 || v == Bot7) ==> Fields(v, e, l, ext1)[3] == Fields(v, e, l, ext2)[3]
    ensures (v == Bot || v == Bot2) && l.plan.Some? ==>
            (Fields(v, e, l, ext1)[3].Raises? <==> ext1.unescape(l.plan.value).None?)
  {
  }

  // ---------------------------------------------------------------------
  // Country

  /** bot7.py as written cannot report on any account whose page has the
      country field: the country step raises and takes the whole report
      with it, where the corrected step shows "(CC) Name". */
  lemma CountryAsWrittenCrashes(l: Lookups, ext: Externals, code: string)
    requires l.country == Some(code)
    ensures Fields(Bot7, AsWritten, l, ext)[0].Raises?
    ensures Report(Bot7, AsWritten, l, ext).Raises?
    ensures ext.countryName(code).Some? ==>
              Fields(Bot7, Corrected, l, ext)[0] == Ok(Some("(" + code + ") " + ext.countryName(code).value))
  {
  }

  /** With the rendering step a known country is shown, as
      "Country: (CC) Name", in the report of bot.py, bot2.py, bot6.py and
      the corrected bot7.py. */
  lemma CountryShown(v: Variant, e: Edition, l: Lookups, ext: Externals, code: string, name: string)
    requires v != Bot7 || e == Corrected
    requires l.country == Some(code) && ext.countryName(code) == Some(name)
    requires Report(v, e, l, ext).Ok?
    ensures Line("Country", "(" + code + ") " + name) in Report(v, e, l, ext).value
  {
    CountryField(v, e, l, ext, code, name);
    FieldShown(v, e, l, ext, 0, "(" + code + ") " + name);
  }

  lemma CountryField(v: Variant, e: Edition, l: Lookups, ext: Externals, code: string, name: string)
    requires v != Bot7 || e == Corrected
    requires l.country == Some(code) && ext.countryName(code) == Some(name)
    ensures Fields(v, e, l, ext)[0] == Ok(Some("(" + code + ") " + name))
  {
  }

  /** A field with a value appears as "Label: value" in a report that was
      produced. */
  lemma FieldShown(v: Variant, e: Edition, l: Lookups, ext: Externals, i: nat, x: string)
    requires i < 12 && Fields(v, e, l, ext)[i] == Ok(Some(x))
    requires Report(v, e, l, ext).Ok?
    ensures Line(Labels(v)[i], x) in Report(v, e, l, ext).value
  {
  }

  /** An unknown country code aborts the whole report, in every bot and
      edition. */
  lemma UnknownCountryRaises(v: Variant, e: Edition, l: Lookups, ext: Externals)
    requires l.country.Some? && ext.countryName(l.country.value).None?
    ensures Report(v, e, l, ext).Raises?
  {
    assert Fields(v, e, l, ext)[0].Raises?;
  }

  /** A card display text the decoder rejects aborts the whole report,
      before any field is looked at. */
  lemma BillingRaises(v: Variant, e: Edition, l: Lookups, ext: Externals)
    requires !ThirdPartyBilled(l) && l.card.Some? && ext.unescape(l.card.value.1).None?
    ensures Report(v, e, l, ext).Raises?
  {
  }

  // ---------------------------------------------------------------------
  // Selection and order of the lines

  /** The lines of two runs of entries are the lines of the first run,
      then those of the second. */
  lemma {:induction false} PresentAppend(a: seq<Entry>, b: seq<Entry>)
    ensures Present(a + b) == Present(a) + Present(b)
  {
    if a == [] {
      assert a + b == b;
    } else {
      assert (a + b)[1..] == a[1..] + b;
      PresentAppend(a[1..], b);
    }
  }

  /** When every entry has a value, each entry gives its line, in order. */
  lemma {:induction false} PresentAll(es: seq<Entry>)
    requires forall i :: 0 <= i < |es| ==> es[i].1.Some?
    ensures |Present(es)| == |es|
    ensures forall i :: 0 <= i < |es| ==> Present(es)[i] == Line(es[i].0, es[i].1.value)
  {
    if es != [] {
      PresentAll(es[1..]);
    }
  }

  /** Entries without a value give no line. */
  lemma {:induction false} PresentNone(es: seq<Entry>)
    requires forall i :: 0 <= i < |es| ==> es[i].1.None?
    ensures Present(es) == []
  {
    if es != [] {
      PresentNone(es[1..]);
    }
  }

  /** The lines of two entries with values appear in entry order. */
  lemma PresentOrder(es: seq<Entry>, i: int, j: int)
    requires 0 <= i < j < |es| && es[i].1.Some? && es[j].1.Some?
    ensures exists a, b :: 0 <= a < b < |Present(es)| && Present(es)[a] == Line(es[i].0, es[i].1.value)
                                                    && Present(es)[b] == Line(es[j].0, es[j].1.value)
  {
    var pre, post := es[..j], es[j..];
    assert es == pre + post;
    PresentAppend(pre, post);
    assert pre[i] == es[i];
    var a :| 0 <= a < |Present(pre)| && Present(pre)[a] == Line(es[i].0, es[i].1.value);
    assert post[0] == es[j];
    assert Present(post)[0] == Line(es[j].0, es[j].1.value);
    var b := |Present(pre)|;
    assert Present(es)[a] == Present(pre)[a] && Present(es)[b] == Present(post)[0];
  }

  /** In a report, the lines of two fields with values follow the billing
      lines in the fixed label order. */
  lemma ReportOrder(v: Variant, e: Edition, l: Lookups, ext: Externals, i: int, j: int, x: string, y: string)
    requires 0 <= i < j < 12
    requires Fields(v, e, l, ext)[i] == Ok(Some(x)) && Fields(v, e, l, ext)[j] == Ok(Some(y))
    requires Report(v, e, l, ext).Ok?
    ensures var r := Report(v, e, l, ext).value;
            var b := BilledUsing(AccountInfo(l, ext).value);
            exists a, c :: 1 + |b| <= a < c < |r| && r[a] == Line(Labels(v)[i], x) && r[c] == Line(Labels(v)[j], y)
  {
    var b := BilledUsing(AccountInfo(l, ext).value);
    var fs := Fields(v, e, l, ext);
    ReportParts(v, e, l, ext);
    var p := Present(Entries(Labels(v), Collect(fs).value));
    CollectedOrder(Labels(v), fs, i, j, x, y);
    var a, c :| 0 <= a < c < |p| && p[a] == Line(Labels(v)[i], x) && p[c] == Line(Labels(v)[j], y);
    AfterPrefix([ReportHeader] + b, p, a, c);
  }

  /** Two values collected from the field list keep their order among the
      lines. */
  lemma CollectedOrder(labels: seq<string>, fs: seq<Outcome<Option<string>>>, i: int, j: int, x: string, y: string)
    requires |labels| == |fs| && 0 <= i < j < |fs| && fs[i] == Ok(Some(x)) && fs[j] == Ok(Some(y))
    requires Collect(fs).Ok?
    ensures var p := Present(Entries(labels, Collect(fs).value));
            exists a, c :: 0 <= a < c < |p| && p[a] == Line(labels[i], x) && p[c] == Line(labels[j], y)
  {
    var vals := Collect(fs).value;
    var es := Entries(labels, vals);
    assert es[i] == (labels[i], Some(x)) && es[j] == (labels[j], Some(y));
    PresentOrder(es, i, j);
  }

  /** Positions in a suffix shift by the prefix's length. */
  lemma AfterPrefix(h: seq<string>, p: seq<string>, a: int, c: int)
    requires 0 <= a < c < |p|
    ensures (h + p)[|h| + a] == p[a] && (h + p)[|h| + c] == p[c]
  {
  }

  /** A report that was produced is the header, the billing lines and the
      lines of the collected field values. */
  lemma ReportParts(v: Variant, e: Edition, l: Lookups, ext: Externals)
    requires Report(v, e, l, ext).Ok?
    ensures AccountInfo(l, ext).Ok? && Collect(Fields(v, e, l, ext)).Ok?
    ensures Report(v, e, l, ext).value == [ReportHeader] + BilledUsing(AccountInfo(l, ext).value)
                                          + Present(Entries(Labels(v), Collect(Fields(v, e, l, ext)).value))
  {
  }
}
