/** The dashboard of the back office: the thousands grouping of its
    figures, the currency text, the fixed statistics it falls back to when
    loading fails, and the labels it derives from the signed-in user and the
    statistics. */
module AdminDashboardModel {
  import opened Options
  import opened Text
  import opened Js
  import opened Seqs

  // ----- formatNumber -----

  /** The digits of a whole number split into groups of three from the
      right, one space between groups: what
      `replace(/\B(?=(\d{3})+(?!\d))/g, ' ')` does to a run of digits. */
  function Group(s: string): (r: string)
    ensures |s| <= |r|
    ensures s != "" ==> r[0] == s[0]
    ensures |s| >= 3 ==> r[|r| - 3..] == s[|s| - 3..]
    decreases |s|
  {
    if |s| <= 3 then s else Group(s[..|s| - 3]) + " " + s[|s| - 3..]
  }

  /** `formatNumber` for a whole number: the sign is not a digit, so no
      space follows it, and the digits after it are grouped. */
  function FormatNumber(n: int): (r: string)
    ensures n >= 0 ==> r == Group(NatToString(n))
    ensures n < 0 ==> r == "-" + Group(NatToString(-n))
  {
    if n < 0 then "-" + Group(NatToString(-n)) else Group(NatToString(n))
  }

  /** `formatCurrency`. */
  function FormatCurrency(amount: int): string {
    FormatNumber(amount) + " ₽"
  }

  function IsNotSpace(c: char): bool {
    c != ' '
  }

  /** Grouping only inserts spaces: taking them out gives the digits back,
      and the text grows by one space per complete group after the first. */
  lemma {:induction false} GroupUngroups(s: string)
    requires AllDigits(s)
    ensures Filter(Group(s), IsNotSpace) == s
    ensures s != "" ==> |Group(s)| == |s| + (|s| - 1) / 3
  {
    if |s| <= 3 {
      FilterAllPass(s, IsNotSpace);
    } else {
      var head := s[..|s| - 3];
      var tail := s[|s| - 3..];
      assert s == head + tail;
      GroupUngroups(head);
      FilterAppend(Group(head) + " ", tail, IsNotSpace);
      FilterAppend(Group(head), " ", IsNotSpace);
      assert Filter(" ", IsNotSpace) == "" by {
        assert " "[..0] == "";
      }
      FilterAllPass(tail, IsNotSpace);
    }
  }

  /** Counted from the right, a space exactly at every fourth position
      and never at the start; a digit everywhere else. */
  predicate CharShape(r: string, j: nat)
    requires j < |r|
  {
    (r[j] == ' ' <==> j > 0 && (|r| - j) % 4 == 0) && (r[j] != ' ' ==> IsDigit(r[j]))
  }

  /** Where the spaces fall: counted from the right, every fourth
      character is a space and every other one a digit, and the text never
      starts with a space; so the first group has one to three digits and
      every later group exactly three. */
  lemma {:induction false} GroupSpaces(s: string)
    requires AllDigits(s)
    ensures forall j :: 0 <= j < |Group(s)| ==> CharShape(Group(s), j)
  {
    var r := Group(s);
    if |s| > 3 {
      var head := s[..|s| - 3];
      var tail := s[|s| - 3..];
      GroupSpaces(head);
      var g := Group(head);
      assert r == g + " " + tail;
      GroupUngroups(head);
      forall j | 0 <= j < |r| ensures CharShape(r, j) {
        ShapeExtend(g, tail, j);
      }
    }
  }

  lemma ShapeExtend(g: string, tail: string, j: nat)
    requires |g| >= 1 && |tail| == 3 && AllDigits(tail)
    requires forall i :: 0 <= i < |g| ==> CharShape(g, i)
    requires j < |g| + 4
    ensures CharShape(g + " " + tail, j)
  {
    var r := g + " " + tail;
    if j < |g| {
      assert CharShape(g, j);
      assert r[j] == g[j];
      assert |r| - j == (|g| - j) + 4;
    } else if j > |g| {
      assert r[j] == tail[j - |g| - 1];
      assert 1 <= |r| - j <= 3;
    }
  }

  /** Removing the spaces from `formatNumber(n)` gives `String(n)`. */
  lemma FormatNumberUngroups(n: int)
    ensures Filter(FormatNumber(n), IsNotSpace) == IntToString(n)
  {
    if n < 0 {
      GroupUngroups(NatToString(-n));
      FilterAppend("-", Group(NatToString(-n)), IsNotSpace);
      assert Filter("-", IsNotSpace) == "-" by { FilterAllPass("-", IsNotSpace); }
    } else {
      GroupUngroups(NatToString(n));
    }
  }

  /** Three digits or fewer stay as they are. */
  lemma FormatSmallExample()
    ensures FormatNumber(999) == "999"
  {
    assert NatToString(999) == "999" by {
      assert NatToString(99) == NatToString(9) + "9";
    }
  }

  /** The fallback revenue as the dashboard shows it. */
  lemma FormatRevenueExample()
    ensures FormatNumber(2480) == "2 480"
    ensures FormatCurrency(2480) == "2 480 ₽"
  {
    var d := NatToString(2480);
    assert d == "2480" by {
      assert NatToString(24) == NatToString(2) + "4";
      assert NatToString(248) == NatToString(24) + "8";
    }
    assert d[..1] == "2" && d[1..] == "480";
  }

  /** Seven digits take two spaces. */
  lemma FormatMillionExample()
    ensures FormatNumber(1234567) == "1 234 567"
  {
    MillionDigits();
    GroupMillion();
  }

  lemma MillionDigits()
    ensures NatToString(1234567) == "1234567"
  {
    assert NatToString(123) == "123" by {
      assert NatToString(12) == NatToString(1) + "2";
    }
    assert NatToString(12345) == "12345" by {
      assert NatToString(1234) == NatToString(123) + "4";
    }
    assert NatToString(123456) == NatToString(12345) + "6";
  }

  lemma GroupMillion()
    ensures Group("1234567") == "1 234 567"
  {
    var d := "1234567";
    assert d[..4] == "1234" && d[4..] == "567";
    var h := "1234";
    assert h[..1] == "1" && h[1..] == "234";
    assert Group(h) == "1 234";
  }

  /** Taking the spaces out of the currency text leaves `String(n)` and
      the rouble sign. */
  lemma FormatCurrencyUngroups(amount: int)
    ensures Filter(FormatCurrency(amount), IsNotSpace) == IntToString(amount) + "₽"
  {
    FormatNumberUngroups(amount);
    FilterAppend(FormatNumber(amount), " ₽", IsNotSpace);
    assert Filter(" ₽", IsNotSpace) == "₽" by {
      assert " ₽"[..1] == " ";
      assert Filter(" ", IsNotSpace) == "" by { assert " "[..0] == ""; }
    }
  }

  // ----- the fallback statistics -----

  datatype DashboardStats = DashboardStats(
    totalOrders: int, totalRevenue: int, pendingOrders: int, completedOrders: int,
    totalProducts: int, lowStockProducts: int, todayOrders: int, monthlyRevenue: int)

  /** The statistics the page starts with: every figure 0. */
  const InitialStats: DashboardStats := DashboardStats(0, 0, 0, 0, 0, 0, 0, 0)

  /** The statistics set when loading throws. */
  const FallbackStats: DashboardStats := DashboardStats(4, 2480, 1, 2, 9, 0, 0, 0)

  /** How the statistics request ends: it throws (the network or the JSON
      parse), it answers with a status that is not ok, or it yields a
      record. */
  datatype StatsFetch = Threw | NotOk | Loaded(stats: DashboardStats)

  /** `loadDashboardData`'s statistics, from the statistics shown before
      the load, the outcome of the statistics request and whether one of
      the two later requests (recent orders, popular products) throws. A
      throw anywhere puts up the fixed fallback, even over statistics that
      had already loaded; a response that is not ok leaves the previous
      statistics. */
  function StatsAfterLoad(previous: DashboardStats, fetch: StatsFetch, laterThrows: bool): (s: DashboardStats)
    ensures fetch.Threw? || laterThrows ==>
              s.totalOrders == 4 && s.totalRevenue == 2480 && s.pendingOrders == 1 &&
              s.completedOrders == 2 && s.totalProducts == 9 && s.lowStockProducts == 0 &&
              s.todayOrders == 0 && s.monthlyRevenue == 0
    ensures fetch.NotOk? && !laterThrows ==> s == previous
    ensures fetch.Loaded? && !laterThrows ==> s == fetch.stats
  {
    if fetch.Threw? || laterThrows then FallbackStats
    else if fetch.NotOk? then previous
    else fetch.stats
  }

  /** On the first load a statistics response that is not ok leaves the
      all-zero record, not the fallback. */
  lemma FirstLoadNotOk()
    ensures StatsAfterLoad(InitialStats, NotOk, false).totalOrders == 0
    ensures StatsAfterLoad(InitialStats, NotOk, false) != StatsAfterLoad(InitialStats, Threw, false)
  {
  }

  // ----- labels -----

  /** The pending card's note: a warning exactly when more than five
      orders wait. */
  function PendingNote(pendingOrders: int): (note: string)
    ensures pendingOrders > 5 <==> note == "⚠️ Требуется внимание"
    ensures pendingOrders <= 5 <==> note == "✅ Все под контролем"
  {
    if pendingOrders > 5 then "⚠️ Требуется внимание" else "✅ Все под контролем"
  }

  /** The products card's note: the low-stock count when it is positive,
      otherwise the number of products minus the low-stock count. */
  function StockNote(totalProducts: int, lowStockProducts: int): (note: string)
    ensures lowStockProducts > 0 ==> note == "⚠️ " + IntToString(lowStockProducts) + " с низким запасом"
    ensures lowStockProducts <= 0 ==> note == "✅ " + IntToString(totalProducts - lowStockProducts) + " с полным запасом"
  {
    if lowStockProducts > 0 then "⚠️ " + IntToString(lowStockProducts) + " с низким запасом"
    else "✅ " + IntToString(totalProducts - lowStockProducts) + " с полным запасом"
  }

  /** Whenever a load throws, the figures shown are consistent with each
      other and show no warning: the pending note is the all-clear and all
      nine products are in full stock. */
  lemma FallbackNotes(previous: DashboardStats, fetch: StatsFetch, laterThrows: bool)
    requires fetch.Threw? || laterThrows
    ensures var s := StatsAfterLoad(previous, fetch, laterThrows);
            s.pendingOrders + s.completedOrders <= s.totalOrders &&
            PendingNote(s.pendingOrders) == "✅ Все под контролем" &&
            StockNote(s.totalProducts, s.lowStockProducts) == "✅ 9 с полным запасом"
  {
    assert IntToString(9) == "9";
  }

  /** The role label of the signed-in user: an exact match on five role
      names, `Сотрудник` for anything else, a missing user included. */
  function RoleLabel(userInfo: Option<Record>): (text: string)
    ensures text == "Сотрудник" <==>
              userInfo.None? || Get(userInfo.value, "role") !in {Str("manager"), Str("cook"), Str("waiter"), Str("cashier"), Str("buyer")}
  {
    var role := if userInfo.Some? then Get(userInfo.value, "role") else Null;
    if role == Str("manager") then "\U{1F454} Менеджер"
    else if role == Str("cook") then "\U{1F468}\U{200D}\U{1F373} Повар"
    else if role == Str("waiter") then "\U{1F4BC} Официант"
    else if role == Str("cashier") then "\U{1F4B5} Кассир"
    else if role == Str("buyer") then "\U{1F4E6} Закупщик"
    else "Сотрудник"
  }

  /** The name shown for the signed-in user:
      `userInfo?.fullName || userInfo?.username || 'Администратор'`. */
  function UserName(userInfo: Option<Record>): (name: Value)
    ensures Truthy(name)
    ensures userInfo.None? ==> name == Str("Администратор")
    ensures userInfo.Some? && Truthy(Get(userInfo.value, "fullName")) ==> name == Get(userInfo.value, "fullName")
  {
    if userInfo.None? then Str("Администратор")
    else Or(Or(Get(userInfo.value, "fullName"), Get(userInfo.value, "username")), Str("Администратор"))
  }
}
