/**
 * The country list offered by the emissions views, and the CSV parser that
 * takes each row's country from its first column.
 */
module CountryData {

  import opened Wrappers
  import opened Strings
  import opened EmissionsData
  import opened EmissionsCsv

  /**
   * The default `Array.prototype.sort` order on strings: code unit by code
   * unit from index `i`, a proper prefix coming first.
   */
  predicate LessFrom(a: string, b: string, i: nat)
    decreases |a| - i
  {
    if i >= |a| then i < |b|
    else if i >= |b| then false
    else if a[i] != b[i] then a[i] < b[i]
    else LessFrom(a, b, i + 1)
  }

  predicate Less(a: string, b: string) {
    LessFrom(a, b, 0)
  }

  lemma {:induction false} LessFromIrreflexive(a: string, i: nat)
    ensures !LessFrom(a, a, i)
    decreases |a| - i
  {
    if i < |a| {
      LessFromIrreflexive(a, i + 1);
    }
  }

  lemma {:induction false} LessFromAsymmetric(a: string, b: string, i: nat)
    requires LessFrom(a, b, i)
    ensures !LessFrom(b, a, i)
    decreases |a| - i
  {
    if i < |a| && i < |b| && a[i] == b[i] {
      LessFromAsymmetric(a, b, i + 1);
    }
  }

  lemma {:induction false} LessFromTransitive(a: string, b: string, c: string, i: nat)
    requires LessFrom(a, b, i) && LessFrom(b, c, i)
    ensures LessFrom(a, c, i)
    decreases |a| - i
  {
    if i < |a| && i < |b| && i < |c| && a[i] == b[i] && b[i] == c[i] {
      LessFromTransitive(a, b, c, i + 1);
    }
  }

  /**
   * `a` sorts before `b` when the two agree before position `k` and there `a`
   * either ends or has the smaller character.
   */
  lemma LessAt(a: string, b: string, k: nat)
    requires k <= |a| && k < |b| && (k < |a| ==> a[k] < b[k])
    requires forall j :: 0 <= j < k ==> a[j] == b[j]
    ensures Less(a, b)
  {
    LessFromAt(a, b, 0, k);
  }

  lemma {:induction false} LessFromAt(a: string, b: string, i: nat, k: nat)
    requires i <= k <= |a| && k < |b| && (k < |a| ==> a[k] < b[k])
    requires forall j :: i <= j < k ==> a[j] == b[j]
    ensures LessFrom(a, b, i)
    decreases k - i
  {
    if i < k {
      LessFromAt(a, b, i + 1, k);
    }
  }

  /** Each name before the next, in the default sort order. */
  predicate StrictlySorted(s: seq<string>) {
    forall i, j :: 0 <= i < j < |s| ==> Less(s[i], s[j])
  }

  /** Insert `x` before the first element that does not sort before it. */
  function InsertName(x: string, s: seq<string>): (r: seq<string>)
    ensures multiset(r) == multiset(s) + multiset{x}
  {
    if s == [] || !Less(s[0], x) then [x] + s
    else
      assert s == [s[0]] + s[1..];
      [s[0]] + InsertName(x, s[1..])
  }

  /** `.sort()` with the default comparator, as an insertion sort. */
  function SortNames(s: seq<string>): (r: seq<string>)
    ensures multiset(r) == multiset(s)
  {
    if s == [] then []
    else
      assert s == [s[0]] + s[1..];
      InsertName(s[0], SortNames(s[1..]))
  }

  /** Sorting a list that is already strictly sorted changes nothing. */
  lemma {:induction false} SortSortedIsIdentity(s: seq<string>)
    requires StrictlySorted(s)
    ensures SortNames(s) == s
  {
    if s != [] {
      assert StrictlySorted(s[1..]);
      SortSortedIsIdentity(s[1..]);
      if |s| > 1 {
        LessFromAsymmetric(s[0], s[1], 0);
      }
      assert [s[0]] + s[1..] == s;
    }
  }


  /**
   * The names as the source lists them, before `.sort()`, built from the
   * back: `From00` is the whole list and each `FromNN` is the list from
   * entry NN on.
   */
  const From00: seq<string> := ["Hungary"] + From01
  const From01: seq<string> := ["Iceland"] + From02
  const From02: seq<string> := ["India"] + From03
  const From03: seq<string> := ["Indonesia"] + From04
  const From04: seq<string> := ["Iran"] + From05
  const From05: seq<string> := ["Iraq"] + From06
  const From06: seq<string> := ["Ireland"] + From07
  const From07: seq<string> := ["Israel"] + From08
  const From08: seq<string> := ["Italy"] + From09
  const From09: seq<string> := ["Jamaica"] + From10
  const From10: seq<string> := ["Japan"] + From11
  const From11: seq<string> := ["Jordan"] + From12
  const From12: seq<string> := ["Kazakhstan"] + From13
  const From13: seq<string> := ["Kenya"] + From14
  const From14: seq<string> := ["Kiribati"] + From15
  const From15: seq<string> := ["Kosovo"] + From16
  const From16: seq<string> := ["Kuwait"] + From17
  const From17: seq<string> := ["Kyrgyzstan"] + From18
  const From18: seq<string> := ["Laos"] + From19
  const From19: seq<string> := ["Latvia"] + From20
  const From20: seq<string> := ["Lebanon"] + From21
  const From21: seq<string> := ["Lesotho"] + From22
  const From22: seq<string> := ["Liberia"] + From23
  const From23: seq<string> := ["Libya"] + From24
  const From24: seq<string> := ["Liechtenstein"] + From25
  const From25: seq<string> := ["Lithuania"] + From26
  const From26: seq<string> := ["Luxembourg"] + From27
  const From27: seq<string> := ["Macao"] + From28
  const From28: seq<string> := ["Madagascar"] + From29
  const From29: seq<string> := ["Malawi"] + From30
  const From30: seq<string> := ["Malaysia"] + From31
  const From31: seq<string> := ["Maldives"] + From32
  const From32: seq<string> := ["Mali"] + From33
  const From33: seq<string> := ["Malta"] + From34
  const From34: seq<string> := ["Marshall_Islands"] + From35
  const From35: seq<string> := ["Mauritania"] + From36
  const From36: seq<string> := ["Mauritius"] + From37
  const From37: seq<string> := ["Mexico"] + From38
  const From38: seq<string> := ["Micronesia_country"] + From39
  const From39: seq<string> := ["Moldova"] + From40
  const From40: seq<string> := ["Monaco"] + From41
  const From41: seq<string> := ["Mongolia"] + From42
  const From42: seq<string> := ["Montenegro"] + From43
  const From43: seq<string> := ["Montserrat"] + From44
  const From44: seq<string> := ["Morocco"] + From45
  const From45: seq<string> := ["Mozambique"] + From46
  const From46: seq<string> := ["Myanmar"] + From47
  const From47: seq<string> := ["Namibia"] + From48
  const From48: seq<string> := ["Nauru"] + From49
  const From49: seq<string> := ["Nepal"] + From50
  const From50: seq<string> := ["Netherlands"] + From51
  const From51: seq<string> := ["New_Caledonia"] + From52
  const From52: seq<string> := ["New_Zealand"] + From53
  const From53: seq<string> := ["Nicaragua"] + From54
  const From54: seq<string> := ["Niger"] + From55
  const From55: seq<string> := ["Nigeria"] + From56
  const From56: seq<string> := ["Niue"] + From57
  const From57: seq<string> := ["North_Korea"] + From58
  const From58: seq<string> := ["North_Macedonia"] + From59
  const From59: seq<string> := ["Norway"] + From60
  const From60: seq<string> := ["Oman"] + From61
  const From61: seq<string> := ["Pakistan"] + From62
  const From62: seq<string> := ["Palau"] + From63
  const From63: seq<string> := ["Palestine"] + From64
  const From64: seq<string> := ["Panama"] + From65
  const From65: seq<string> := ["Papua_New_Guinea"] + From66
  const From66: seq<string> := ["Paraguay"] + From67
  const From67: seq<string> := ["Peru"] + From68
  const From68: seq<string> := ["Philippines"] + From69
  const From69: seq<string> := ["Poland"] + From70
  const From70: seq<string> := ["Portugal"] + From71
  const From71: seq<string> := ["Qatar"] + From72
  const From72: seq<string> := ["Romania"] + From73
  const From73: seq<string> := ["Russia"] + From74
  const From74: seq<string> := ["Rwanda"] + From75
  const From75: seq<string> := ["Saint_Helena"] + From76
  const From76: seq<string> := ["Saint_Kitts_and_Nevis"] + From77
  const From77: seq<string> := ["Saint_Lucia"] + From78
  const From78: seq<string> := ["Saint_Pierre_and_Miquelon"] + From79
  const From79: seq<string> := ["Saint_Vincent_and_the_Grenadines"] + From80
  const From80: seq<string> := ["Samoa"] + From81
  const From81: seq<string> := ["United_States"]

  const CountryLiteral: seq<string> := From00

  /** Each entry sorts before the next. */
  predicate Checked(s: seq<string>) {
    |s| < 2 || (Less(s[0], s[1]) && Checked(s[1..]))
  }

  /** A suffix of the literal of `n` names, in pairwise order, ending in United_States. */
  predicate Suffix(s: seq<string>, n: nat) {
    Checked(s) && |s| == n && n >= 1 && s[n - 1] == "United_States"
  }

  /** Pairwise order is order: the default comparator is transitive. */
  lemma {:induction false} CheckedIsSorted(s: seq<string>)
    requires Checked(s)
    ensures StrictlySorted(s)
  {
    if |s| >= 2 {
      CheckedIsSorted(s[1..]);
      forall a, b | 0 <= a < b < |s| ensures Less(s[a], s[b]) {
        if a == 0 {
          if b > 1 {
            assert Less(s[1], s[b]) by {
              assert s[1] == s[1..][0] && s[b] == s[1..][b - 1];
            }
            LessFromTransitive(s[0], s[1], s[b], 0);
          }
        } else {
          assert s[a] == s[1..][a - 1] && s[b] == s[1..][b - 1];
        }
      }
    }
  }

  /** One more name in front of a suffix, sorting before its first entry. */
  lemma SuffixStep(x: string, y: string, t: seq<string>, n: nat)
    requires Suffix(t, n) && n >= 1 && t[0] == y && Less(x, y)
    ensures Suffix([x] + t, n + 1)
  {
    assert ([x] + t)[1..] == t;
    assert ([x] + t)[n] == t[n - 1];
  }

  lemma Suffix81()
    ensures Suffix(From81, 1)
  {
  }

  lemma Suffix80()
    requires Suffix(From81, 1)
    ensures Suffix(From80, 2)
  {
    LessAt("Samoa", "United_States", 0);
    SuffixStep("Samoa", "United_States", From81, 1);
  }

  lemma Suffix79()
    requires Suffix(From80, 2)
    ensures Suffix(From79, 3)
  {
    LessAt("Saint_Vincent_and_the_Grenadines", "Samoa", 2);
    SuffixStep("Saint_Vincent_and_the_Grenadines", "Samoa", From80, 2);
  }

  lemma Suffix78()
    requires Suffix(From79, 3)
    ensures Suffix(From78, 4)
  {
    LessAt("Saint_Pierre_and_Miquelon", "Saint_Vincent_and_the_Grenadines", 6);
    SuffixStep("Saint_Pierre_and_Miquelon", "Saint_Vincent_and_the_Grenadines", From79, 3);
  }

  lemma Suffix77()
    requires Suffix(From78, 4)
    ensures Suffix(From77, 5)
  {
    LessAt("Saint_Lucia", "Saint_Pierre_and_Miquelon", 6);
    SuffixStep("Saint_Lucia", "Saint_Pierre_and_Miquelon", From78, 4);
  }

  lemma Suffix76()
    requires Suffix(From77, 5)
    ensures Suffix(From76, 6)
  {
    LessAt("Saint_Kitts_and_Nevis", "Saint_Lucia", 6);
    SuffixStep("Saint_Kitts_and_Nevis", "Saint_Lucia", From77, 5);
  }

  lemma Suffix75()
    requires Suffix(From76, 6)
    ensures Suffix(From75, 7)
  {
    LessAt("Saint_Helena", "Saint_Kitts_and_Nevis", 6);
    SuffixStep("Saint_Helena", "Saint_Kitts_and_Nevis", From76, 6);
  }

  lemma Suffix74()
    requires Suffix(From75, 7)
    ensures Suffix(From74, 8)
  {
    LessAt("Rwanda", "Saint_Helena", 0);
    SuffixStep("Rwanda", "Saint_Helena", From75, 7);
  }

  lemma Suffix73()
    requires Suffix(From74, 8)
    ensures Suffix(From73, 9)
  {
    LessAt("Russia", "Rwanda", 1);
    SuffixStep("Russia", "Rwanda", From74, 8);
  }

  lemma Suffix72()
    requires Suffix(From73, 9)
    ensures Suffix(From72, 10)
  {
    LessAt("Romania", "Russia", 1);
    SuffixStep("Romania", "Russia", From73, 9);
  }

  lemma Suffix71()
    requires Suffix(From72, 10)
    ensures Suffix(From71, 11)
  {
    LessAt("Qatar", "Romania", 0);
    SuffixStep("Qatar", "Romania", From72, 10);
  }

  lemma Suffix70()
    requires Suffix(From71, 11)
    ensures Suffix(From70, 12)
  {
    LessAt("Portugal", "Qatar", 0);
    SuffixStep("Portugal", "Qatar", From71, 11);
  }

  lemma Suffix69()
    requires Suffix(From70, 12)
    ensures Suffix(From69, 13)
  {
    LessAt("Poland", "Portugal", 2);
    SuffixStep("Poland", "Portugal", From70, 12);
  }

  lemma Suffix68()
    requires Suffix(From69, 13)
    ensures Suffix(From68, 14)
  {
    LessAt("Philippines", "Poland", 1);
    SuffixStep("Philippines", "Poland", From69, 13);
  }

  lemma Suffix67()
    requires Suffix(From68, 14)
    ensures Suffix(From67, 15)
  {
    LessAt("Peru", "Philippines", 1);
    SuffixStep("Peru", "Philippines", From68, 14);
  }

  lemma Suffix66()
    requires Suffix(From67, 15)
    ensures Suffix(From66, 16)
  {
    LessAt("Paraguay", "Peru", 1);
    SuffixStep("Paraguay", "Peru", From67, 15);
  }

  lemma Suffix65()
    requires Suffix(From66, 16)
    ensures Suffix(From65, 17)
  {
    LessAt("Papua_New_Guinea", "Paraguay", 2);
    SuffixStep("Papua_New_Guinea", "Paraguay", From66, 16);
  }

  lemma Suffix64()
    requires Suffix(From65, 17)
    ensures Suffix(From64, 18)
  {
    LessAt("Panama", "Papua_New_Guinea", 2);
    SuffixStep("Panama", "Papua_New_Guinea", From65, 17);
  }

  lemma Suffix63()
    requires Suffix(From64, 18)
    ensures Suffix(From63, 19)
  {
    LessAt("Palestine", "Panama", 2);
    SuffixStep("Palestine", "Panama", From64, 18);
  }

  lemma Suffix62()
    requires Suffix(From63, 19)
    ensures Suffix(From62, 20)
  {
    LessAt("Palau", "Palestine", 3);
    SuffixStep("Palau", "Palestine", From63, 19);
  }

  lemma Suffix61()
    requires Suffix(From62, 20)
    ensures Suffix(From61, 21)
  {
    LessAt("Pakistan", "Palau", 2);
    SuffixStep("Pakistan", "Palau", From62, 20);
  }

  lemma Suffix60()
    requires Suffix(From61, 21)
    ensures Suffix(From60, 22)
  {
    LessAt("Oman", "Pakistan", 0);
    SuffixStep("Oman", "Pakistan", From61, 21);
  }

  lemma Suffix59()
    requires Suffix(From60, 22)
    ensures Suffix(From59, 23)
  {
    LessAt("Norway", "Oman", 0);
    SuffixStep("Norway", "Oman", From60, 22);
  }

  lemma Suffix58()
    requires Suffix(From59, 23)
    ensures Suffix(From58, 24)
  {
    LessAt("North_Macedonia", "Norway", 3);
    SuffixStep("North_Macedonia", "Norway", From59, 23);
  }

  lemma Suffix57()
    requires Suffix(From58, 24)
    ensures Suffix(From57, 25)
  {
    LessAt("North_Korea", "North_Macedonia", 6);
    SuffixStep("North_Korea", "North_Macedonia", From58, 24);
  }

  lemma Suffix56()
    requires Suffix(From57, 25)
    ensures Suffix(From56, 26)
  {
    LessAt("Niue", "North_Korea", 1);
    SuffixStep("Niue", "North_Korea", From57, 25);
  }

  lemma Suffix55()
    requires Suffix(From56, 26)
    ensures Suffix(From55, 27)
  {
    LessAt("Nigeria", "Niue", 2);
    SuffixStep("Nigeria", "Niue", From56, 26);
  }

  lemma Suffix54()
    requires Suffix(From55, 27)
    ensures Suffix(From54, 28)
  {
    LessAt("Niger", "Nigeria", 5);
    SuffixStep("Niger", "Nigeria", From55, 27);
  }

  lemma Suffix53()
    requires Suffix(From54, 28)
    ensures Suffix(From53, 29)
  {
    LessAt("Nicaragua", "Niger", 2);
    SuffixStep("Nicaragua", "Niger", From54, 28);
  }

  lemma Suffix52()
    requires Suffix(From53, 29)
    ensures Suffix(From52, 30)
  {
    LessAt("New_Zealand", "Nicaragua", 1);
    SuffixStep("New_Zealand", "Nicaragua", From53, 29);
  }

  lemma Suffix51()
    requires Suffix(From52, 30)
    ensures Suffix(From51, 31)
  {
    LessAt("New_Caledonia", "New_Zealand", 4);
    SuffixStep("New_Caledonia", "New_Zealand", From52, 30);
  }

  lemma Suffix50()
    requires Suffix(From51, 31)
    ensures Suffix(From50, 32)
  {
    LessAt("Netherlands", "New_Caledonia", 2);
    SuffixStep("Netherlands", "New_Caledonia", From51, 31);
  }

  lemma Suffix49()
    requires Suffix(From50, 32)
    ensures Suffix(From49, 33)
  {
    LessAt("Nepal", "Netherlands", 2);
    SuffixStep("Nepal", "Netherlands", From50, 32);
  }

  lemma Suffix48()
    requires Suffix(From49, 33)
    ensures Suffix(From48, 34)
  {
    LessAt("Nauru", "Nepal", 1);
    SuffixStep("Nauru", "Nepal", From49, 33);
  }

  lemma Suffix47()
    requires Suffix(From48, 34)
    ensures Suffix(From47, 35)
  {
    LessAt("Namibia", "Nauru", 2);
    SuffixStep("Namibia", "Nauru", From48, 34);
  }

  lemma Suffix46()
    requires Suffix(From47, 35)
    ensures Suffix(From46, 36)
  {
    LessAt("Myanmar", "Namibia", 0);
    SuffixStep("Myanmar", "Namibia", From47, 35);
  }

  lemma Suffix45()
    requires Suffix(From46, 36)
    ensures Suffix(From45, 37)
  {
    LessAt("Mozambique", "Myanmar", 1);
    SuffixStep("Mozambique", "Myanmar", From46, 36);
  }

  lemma Suffix44()
    requires Suffix(From45, 37)
    ensures Suffix(From44, 38)
  {
    LessAt("Morocco", "Mozambique", 2);
    SuffixStep("Morocco", "Mozambique", From45, 37);
  }

  lemma Suffix43()
    requires Suffix(From44, 38)
    ensures Suffix(From43, 39)
  {
    LessAt("Montserrat", "Morocco", 2);
    SuffixStep("Montserrat", "Morocco", From44, 38);
  }

  lemma Suffix42()
    requires Suffix(From43, 39)
    ensures Suffix(From42, 40)
  {
    LessAt("Montenegro", "Montserrat", 4);
    SuffixStep("Montenegro", "Montserrat", From43, 39);
  }

  lemma Suffix41()
    requires Suffix(From42, 40)
    ensures Suffix(From41, 41)
  {
    LessAt("Mongolia", "Montenegro", 3);
    SuffixStep("Mongolia", "Montenegro", From42, 40);
  }

  lemma Suffix40()
    requires Suffix(From41, 41)
    ensures Suffix(From40, 42)
  {
    LessAt("Monaco", "Mongolia", 3);
    SuffixStep("Monaco", "Mongolia", From41, 41);
  }

  lemma Suffix39()
    requires Suffix(From40, 42)
    ensures Suffix(From39, 43)
  {
    LessAt("Moldova", "Monaco", 2);
    SuffixStep("Moldova", "Monaco", From40, 42);
  }

  lemma Suffix38()
    requires Suffix(From39, 43)
    ensures Suffix(From38, 44)
  {
    LessAt("Micronesia_country", "Moldova", 1);
    SuffixStep("Micronesia_country", "Moldova", From39, 43);
  }

  lemma Suffix37()
    requires Suffix(From38, 44)
    ensures Suffix(From37, 45)
  {
    LessAt("Mexico", "Micronesia_country", 1);
    SuffixStep("Mexico", "Micronesia_country", From38, 44);
  }

  lemma Suffix36()
    requires Suffix(From37, 45)
    ensures Suffix(From36, 46)
  {
    LessAt("Mauritius", "Mexico", 1);
    SuffixStep("Mauritius", "Mexico", From37, 45);
  }

  lemma Suffix35()
    requires Suffix(From36, 46)
    ensures Suffix(From35, 47)
  {
    LessAt("Mauritania", "Mauritius", 6);
    SuffixStep("Mauritania", "Mauritius", From36, 46);
  }

  lemma Suffix34()
    requires Suffix(From35, 47)
    ensures Suffix(From34, 48)
  {
    LessAt("Marshall_Islands", "Mauritania", 2);
    SuffixStep("Marshall_Islands", "Mauritania", From35, 47);
  }

  lemma Suffix33()
    requires Suffix(From34, 48)
    ensures Suffix(From33, 49)
  {
    LessAt("Malta", "Marshall_Islands", 2);
    SuffixStep("Malta", "Marshall_Islands", From34, 48);
  }

  lemma Suffix32()
    requires Suffix(From33, 49)
    ensures Suffix(From32, 50)
  {
    LessAt("Mali", "Malta", 3);
    SuffixStep("Mali", "Malta", From33, 49);
  }

  lemma Suffix31()
    requires Suffix(From32, 50)
    ensures Suffix(From31, 51)
  {
    LessAt("Maldives", "Mali", 3);
    SuffixStep("Maldives", "Mali", From32, 50);
  }

  lemma Suffix30()
    requires Suffix(From31, 51)
    ensures Suffix(From30, 52)
  {
    LessAt("Malaysia", "Maldives", 3);
    SuffixStep("Malaysia", "Maldives", From31, 51);
  }

  lemma Suffix29()
    requires Suffix(From30, 52)
    ensures Suffix(From29, 53)
  {
    LessAt("Malawi", "Malaysia", 4);
    SuffixStep("Malawi", "Malaysia", From30, 52);
  }

  lemma Suffix28()
    requires Suffix(From29, 53)
    ensures Suffix(From28, 54)
  {
    LessAt("Madagascar", "Malawi", 2);
    SuffixStep("Madagascar", "Malawi", From29, 53);
  }

  lemma Suffix27()
    requires Suffix(From28, 54)
    ensures Suffix(From27, 55)
  {
    LessAt("Macao", "Madagascar", 2);
    SuffixStep("Macao", "Madagascar", From28, 54);
  }

  lemma Suffix26()
    requires Suffix(From27, 55)
    ensures Suffix(From26, 56)
  {
    LessAt("Luxembourg", "Macao", 0);
    SuffixStep("Luxembourg", "Macao", From27, 55);
  }

  lemma Suffix25()
    requires Suffix(From26, 56)
    ensures Suffix(From25, 57)
  {
    LessAt("Lithuania", "Luxembourg", 1);
    SuffixStep("Lithuania", "Luxembourg", From26, 56);
  }

  lemma Suffix24()
    requires Suffix(From25, 57)
    ensures Suffix(From24, 58)
  {
    LessAt("Liechtenstein", "Lithuania", 2);
    SuffixStep("Liechtenstein", "Lithuania", From25, 57);
  }

  lemma Suffix23()
    requires Suffix(From24, 58)
    ensures Suffix(From23, 59)
  {
    LessAt("Libya", "Liechtenstein", 2);
    SuffixStep("Libya", "Liechtenstein", From24, 58);
  }

  lemma Suffix22()
    requires Suffix(From23, 59)
    ensures Suffix(From22, 60)
  {
    LessAt("Liberia", "Libya", 3);
    SuffixStep("Liberia", "Libya", From23, 59);
  }

  lemma Suffix21()
    requires Suffix(From22, 60)
    ensures Suffix(From21, 61)
  {
    LessAt("Lesotho", "Liberia", 1);
    SuffixStep("Lesotho", "Liberia", From22, 60);
  }

  lemma Suffix20()
    requires Suffix(From21, 61)
    ensures Suffix(From20, 62)
  {
    LessAt("Lebanon", "Lesotho", 2);
    SuffixStep("Lebanon", "Lesotho", From21, 61);
  }

  lemma Suffix19()
    requires Suffix(From20, 62)
    ensures Suffix(From19, 63)
  {
    LessAt("Latvia", "Lebanon", 1);
    SuffixStep("Latvia", "Lebanon", From20, 62);
  }

  lemma Suffix18()
    requires Suffix(From19, 63)
    ensures Suffix(From18, 64)
  {
    LessAt("Laos", "Latvia", 2);
    SuffixStep("Laos", "Latvia", From19, 63);
  }

  lemma Suffix17()
    requires Suffix(From18, 64)
    ensures Suffix(From17, 65)
  {
    LessAt("Kyrgyzstan", "Laos", 0);
    SuffixStep("Kyrgyzstan", "Laos", From18, 64);
  }

  lemma Suffix16()
    requires Suffix(From17, 65)
    ensures Suffix(From16, 66)
  {
    LessAt("Kuwait", "Kyrgyzstan", 1);
    SuffixStep("Kuwait", "Kyrgyzstan", From17, 65);
  }

  lemma Suffix15()
    requires Suffix(From16, 66)
    ensures Suffix(From15, 67)
  {
    LessAt("Kosovo", "Kuwait", 1);
    SuffixStep("Kosovo", "Kuwait", From16, 66);
  }

  lemma Suffix14()
    requires Suffix(From15, 67)
    ensures Suffix(From14, 68)
  {
    LessAt("Kiribati", "Kosovo", 1);
    SuffixStep("Kiribati", "Kosovo", From15, 67);
  }

  lemma Suffix13()
    requires Suffix(From14, 68)
    ensures Suffix(From13, 69)
  {
    LessAt("Kenya", "Kiribati", 1);
    SuffixStep("Kenya", "Kiribati", From14, 68);
  }

  lemma Suffix12()
    requires Suffix(From13, 69)
    ensures Suffix(From12, 70)
  {
    LessAt("Kazakhstan", "Kenya", 1);
    SuffixStep("Kazakhstan", "Kenya", From13, 69);
  }

  lemma Suffix11()
    requires Suffix(From12, 70)
    ensures Suffix(From11, 71)
  {
    LessAt("Jordan", "Kazakhstan", 0);
    SuffixStep("Jordan", "Kazakhstan", From12, 70);
  }

  lemma Suffix10()
    requires Suffix(From11, 71)
    ensures Suffix(From10, 72)
  {
    LessAt("Japan", "Jordan", 1);
    SuffixStep("Japan", "Jordan", From11, 71);
  }

  lemma Suffix09()
    requires Suffix(From10, 72)
    ensures Suffix(From09, 73)
  {
    LessAt("Jamaica", "Japan", 2);
    SuffixStep("Jamaica", "Japan", From10, 72);
  }

  lemma Suffix08()
    requires Suffix(From09, 73)
    ensures Suffix(From08, 74)
  {
    LessAt("Italy", "Jamaica", 0);
    SuffixStep("Italy", "Jamaica", From09, 73);
  }

  lemma Suffix07()
    requires Suffix(From08, 74)
    ensures Suffix(From07, 75)
  {
    LessAt("Israel", "Italy", 1);
    SuffixStep("Israel", "Italy", From08, 74);
  }

  lemma Suffix06()
    requires Suffix(From07, 75)
    ensures Suffix(From06, 76)
  {
    LessAt("Ireland", "Israel", 1);
    SuffixStep("Ireland", "Israel", From07, 75);
  }

  lemma Suffix05()
    requires Suffix(From06, 76)
    ensures Suffix(From05, 77)
  {
    LessAt("Iraq", "Ireland", 2);
    SuffixStep("Iraq", "Ireland", From06, 76);
  }

  lemma Suffix04()
    requires Suffix(From05, 77)
    ensures Suffix(From04, 78)
  {
    LessAt("Iran", "Iraq", 3);
    SuffixStep("Iran", "Iraq", From05, 77);
  }

  lemma Suffix03()
    requires Suffix(From04, 78)
    ensures Suffix(From03, 79)
  {
    LessAt("Indonesia", "Iran", 1);
    SuffixStep("Indonesia", "Iran", From04, 78);
  }

  lemma Suffix02()
    requires Suffix(From03, 79)
    ensures Suffix(From02, 80)
  {
    LessAt("India", "Indonesia", 3);
    SuffixStep("India", "Indonesia", From03, 79);
  }

  lemma Suffix01()
    requires Suffix(From02, 80)
    ensures Suffix(From01, 81)
  {
    LessAt("Iceland", "India", 1);
    SuffixStep("Iceland", "India", From02, 80);
  }

  lemma Suffix00()
    requires Suffix(From01, 81)
    ensures Suffix(From00, 82)
  {
    LessAt("Hungary", "Iceland", 0);
    SuffixStep("Hungary", "Iceland", From01, 81);
  }

  /** The source's literal is already in ascending order, pair by pair. */
  lemma LiteralSorted()
    ensures Suffix(CountryLiteral, 82)
    ensures StrictlySorted(CountryLiteral)
  {
    Suffix81();
    Suffix80();
    Suffix79();
    Suffix78();
    Suffix77();
    Suffix76();
    Suffix75();
    Suffix74();
    Suffix73();
    Suffix72();
    Suffix71();
    Suffix70();
    Suffix69();
    Suffix68();
    Suffix67();
    Suffix66();
    Suffix65();
    Suffix64();
    Suffix63();
    Suffix62();
    Suffix61();
    Suffix60();
    Suffix59();
    Suffix58();
    Suffix57();
    Suffix56();
    Suffix55();
    Suffix54();
    Suffix53();
    Suffix52();
    Suffix51();
    Suffix50();
    Suffix49();
    Suffix48();
    Suffix47();
    Suffix46();
    Suffix45();
    Suffix44();
    Suffix43();
    Suffix42();
    Suffix41();
    Suffix40();
    Suffix39();
    Suffix38();
    Suffix37();
    Suffix36();
    Suffix35();
    Suffix34();
    Suffix33();
    Suffix32();
    Suffix31();
    Suffix30();
    Suffix29();
    Suffix28();
    Suffix27();
    Suffix26();
    Suffix25();
    Suffix24();
    Suffix23();
    Suffix22();
    Suffix21();
    Suffix20();
    Suffix19();
    Suffix18();
    Suffix17();
    Suffix16();
    Suffix15();
    Suffix14();
    Suffix13();
    Suffix12();
    Suffix11();
    Suffix10();
    Suffix09();
    Suffix08();
    Suffix07();
    Suffix06();
    Suffix05();
    Suffix04();
    Suffix03();
    Suffix02();
    Suffix01();
    Suffix00();
    CheckedIsSorted(CountryLiteral);
  }

  /** `getAvailableCountries`: the literal, sorted. */
  function AvailableCountries(): seq<string> {
    SortNames(CountryLiteral)
  }

  /** The sorted list is the source's literal, unchanged: it was written in order. */
  lemma AvailableCountriesIsLiteral()
    ensures AvailableCountries() == CountryLiteral
  {
    LiteralSorted();
    SortSortedIsIdentity(CountryLiteral);
  }

  /**
   * The list `getAvailableCountries` returns is in ascending order with no
   * repeats, has 82 names and includes United_States, the default country.
   */
  lemma AvailableCountriesSpec()
    ensures StrictlySorted(CountryLiteral)
    ensures forall i, j :: 0 <= i < j < |CountryLiteral| ==> CountryLiteral[i] != CountryLiteral[j]
    ensures |CountryLiteral| == 82
    ensures "United_States" in CountryLiteral
  {
    LiteralSorted();
    SortedIsDistinct(CountryLiteral);
  }

  lemma SortedIsDistinct(s: seq<string>)
    requires StrictlySorted(s)
    ensures forall i, j :: 0 <= i < j < |s| ==> s[i] != s[j]
  {
    forall i, j | 0 <= i < j < |s| ensures s[i] != s[j] {
      if s[i] == s[j] {
        LessFromIrreflexive(s[i], 0);
      }
    }
  }

  /** `parseEmissionsCSV`: the shared pipeline with the country read from column 0. */
  function ParseEmissionsCsv(csv: string, rd: Readers): (rows: seq<EmissionsRecord>)
    ensures |rows| <= |Split(csv, '\n')| - 1
    ensures forall r :: r in rows ==>
      exists i :: 1 <= i < |Split(csv, '\n')| && ParseLine(Split(csv, '\n')[i], FromColumn, rd) == Some(r)
  {
    var lines := Split(csv, '\n');
    RowsFromLines(lines[1..], FromColumn, rd);
    assert forall i :: 0 <= i < |lines[1..]| ==> lines[1..][i] == lines[i + 1];
    ParseCsv(csv, FromColumn, rd)
  }
}
