// The administrator's list pages: the user table (sorted by mention, class
// and registration number), the dashboard (elections newest first, status
// counts, a carousel over the elections) and the election table. Each page
// keeps a full list and a searched list, and deletes from both.
//
// The searches on these pages read `x.nom.toLowerCase()` without a guard; a
// nameless entry makes the search effect throw, which the pages record as
// `broken`.

module AdminLists {
  import opened Common
  import opened Elections
  import Labels
  import Sorting

  // ---------------------------------------------------------------------
  // Delete by id
  // ---------------------------------------------------------------------

  /** `xs.filter(x => x.id !== d)`. */
  function DeleteById<T>(xs: seq<T>, id: T -> int, d: int): (r: seq<T>)
    ensures |r| <= |xs|
    ensures forall i :: 0 <= i < |r| ==> r[i] in xs && id(r[i]) != d
    ensures forall i :: 0 <= i < |xs| && id(xs[i]) != d ==> xs[i] in r
  {
    Filter(xs, (x: T) => id(x) != d)
  }

  lemma {:induction false} FilterKeepsAll<T>(s: seq<T>, p: T -> bool)
    requires forall i :: 0 <= i < |s| ==> p(s[i])
    ensures Filter(s, p) == s
  {
    if s != [] {
      assert p(s[0]);
      forall i | 0 <= i < |s[1..]| ensures p(s[1..][i]) {
        assert s[1..][i] == s[i + 1];
      }
      FilterKeepsAll(s[1..], p);
    }
  }

  /** With ids unique, a delete removes exactly the one entry and the others
      keep their order. */
  lemma DeleteUniqueKeepsOrder<T>(a: seq<T>, x: T, b: seq<T>, id: T -> int)
    requires forall i :: 0 <= i < |a| ==> id(a[i]) != id(x)
    requires forall i :: 0 <= i < |b| ==> id(b[i]) != id(x)
    ensures DeleteById(a + [x] + b, id, id(x)) == a + b
  {
    var d := id(x);
    DeleteByIdAppend(a + [x], b, id, d);
    DeleteByIdAppend(a, [x], id, d);
    assert DeleteById([x], id, d) == [];
    DeleteByIdKeepsAll(a, id, d);
    DeleteByIdKeepsAll(b, id, d);
  }

  lemma DeleteByIdAppend<T>(a: seq<T>, b: seq<T>, id: T -> int, d: int)
    ensures DeleteById(a + b, id, d) == DeleteById(a, id, d) + DeleteById(b, id, d)
  {
    FilterAppend(a, b, (x: T) => id(x) != d);
  }

  lemma DeleteByIdKeepsAll<T>(xs: seq<T>, id: T -> int, d: int)
    requires forall i :: 0 <= i < |xs| ==> id(xs[i]) != d
    ensures DeleteById(xs, id, d) == xs
  {
    FilterKeepsAll(xs, (x: T) => id(x) != d);
  }

  /** Every entry has a name, so the unguarded search cannot throw. */
  predicate AllNamed<T>(xs: seq<T>, name: T -> Option<string>) {
    forall i :: 0 <= i < |xs| ==> name(xs[i]).Some?
  }

  /** Deleting from the searched list gives the search of the shortened
      list: a page that deletes from both lists keeps them consistent. */
  lemma DeleteCommutesWithSearch<T>(xs: seq<T>, name: T -> Option<string>, query: string, id: T -> int, d: int)
    ensures DeleteById(NameSearch(xs, name, query), id, d) == NameSearch(DeleteById(xs, id, d), name, query)
  {
    FilterCommutes(xs, (x: T) => NameMatches(name(x), query), (x: T) => id(x) != d);
  }

  lemma DeleteKeepsNamed<T>(xs: seq<T>, name: T -> Option<string>, id: T -> int, d: int)
    requires AllNamed(xs, name)
    ensures AllNamed(DeleteById(xs, id, d), name)
  {
    var r := DeleteById(xs, id, d);
    forall i | 0 <= i < |r| ensures name(r[i]).Some? {
      var k :| 0 <= k < |xs| && xs[k] == r[i];
    }
  }

  /** A delete applied to a page's full list and to its searched list keeps
      the searched list equal to the search of the full one, and the full
      list named. */
  lemma DeleteKeepsSearch<T>(xs: seq<T>, fs: seq<T>, name: T -> Option<string>, query: string, id: T -> int, d: int)
    requires Searched(xs, fs, name, query)
    ensures Searched(DeleteById(xs, id, d), DeleteById(fs, id, d), name, query)
  {
    DeleteCommutesWithSearch(xs, name, query, id, d);
    DeleteKeepsNamed(xs, name, id, d);
  }

  /** A page's searched list when its search has not thrown: every entry of
      the full list is named, and the searched list is its search. */
  ghost predicate Searched<T>(xs: seq<T>, fs: seq<T>, name: T -> Option<string>, query: string) {
    AllNamed(xs, name) && fs == NameSearch(xs, name, query)
  }

  /** The strict search succeeds exactly when every entry is named. */
  lemma StrictSearchIffNamed<T>(xs: seq<T>, name: T -> Option<string>, query: string)
    ensures StrictNameSearch(xs, name, query).Some? <==> AllNamed(xs, name)
  {
  }

  /** Two lists with the same elements are named alike. */
  lemma SameElementsNamed<T>(s: seq<T>, t: seq<T>, name: T -> Option<string>)
    requires multiset(s) == multiset(t)
    ensures AllNamed(s, name) <==> AllNamed(t, name)
  {
    if AllNamed(t, name) {
      forall i | 0 <= i < |s| ensures name(s[i]).Some? {
        assert s[i] in multiset(t);
        var k :| 0 <= k < |t| && t[k] == s[i];
      }
    }
    if AllNamed(s, name) {
      forall i | 0 <= i < |t| ensures name(t[i]).Some? {
        assert t[i] in multiset(s);
        var k :| 0 <= k < |s| && s[k] == t[i];
      }
    }
  }

  /** Searching a sorted copy keeps the order and finds the same entries as
      searching the original. */
  lemma SearchOfSorted<T>(s: seq<T>, t: seq<T>, name: T -> Option<string>, query: string, le: (T, T) -> bool)
    requires multiset(s) == multiset(t) && Sorting.Sorted(s, le)
    ensures Sorting.Sorted(NameSearch(s, name, query), le)
    ensures multiset(NameSearch(s, name, query)) == multiset(NameSearch(t, name, query))
  {
    Sorting.FilterKeepsSorted(s, (x: T) => NameMatches(name(x), query), le);
    Sorting.FilterPreservesPermutation(s, t, (x: T) => NameMatches(name(x), query));
  }

  // ---------------------------------------------------------------------
  // Users, as the user table sorts them
  // ---------------------------------------------------------------------

  datatype User = User(id: int, nom: Option<string>, mention: Option<string>, classe: Option<int>, matricule: Option<string>)

  function UserName(u: User): Option<string> { u.nom }
  function UserId(u: User): int { u.id }

  /** The mention order of the user table. */
  const MentionOrder: seq<string> := ["INFO", "DIS", "ECO", "SA", "ST", "LEA", "DROIT"]

  /** `mentionOrder[mention] || 999`: the 1-based position in the order, 999
      for anything else. */
  function MentionRank(m: Option<string>): (r: int)
    ensures m.Some? && m.value in MentionOrder ==> 1 <= r <= 7 && MentionOrder[r - 1] == m.value
    ensures !(m.Some? && m.value in MentionOrder) ==> r == 999
  {
    if m.None? then 999
    else if m.value == "INFO" then 1
    else if m.value == "DIS" then 2
    else if m.value == "ECO" then 3
    else if m.value == "SA" then 4
    else if m.value == "ST" then 5
    else if m.value == "LEA" then 6
    else if m.value == "DROIT" then 7
    else 999
  }

  /** 'DIS' is ranked by the sort but shown as 'Inconnu' by the table. */
  lemma DisRankedButUnlabelled()
    ensures MentionRank(Some("DIS")) == 2 && Labels.MentionCodeLabel("DIS") == "Inconnu"
  {
  }

  /** `classe || 999`. */
  function ClasseKey(c: Option<int>): int {
    if c.Some? && c.value != 0 then c.value else 999
  }

  /** `matricule || ''`. */
  function MatriculeKey(m: Option<string>): string {
    if m.Some? then m.value else ""
  }

  /** The user comparator: mention rank, then class, then registration
      number. */
  function UserCompare(a: User, b: User): int {
    var ma := MentionRank(a.mention);
    var mb := MentionRank(b.mention);
    if ma != mb then ma - mb
    else
      var ca := ClasseKey(a.classe);
      var cb := ClasseKey(b.classe);
      if ca != cb then ca - cb
      else Sorting.StrCompare(MatriculeKey(a.matricule), MatriculeKey(b.matricule))
  }

  predicate UserLe(a: User, b: User) {
    UserCompare(a, b) <= 0
  }

  lemma UserLeTotalPreorder()
    ensures Sorting.TotalPreorder(UserLe)
  {
    forall a: User, b: User ensures UserLe(a, b) || UserLe(b, a) {
      Sorting.StrCompareAntisymmetric(MatriculeKey(a.matricule), MatriculeKey(b.matricule));
    }
    forall a: User, b: User, c: User | UserLe(a, b) && UserLe(b, c) ensures UserLe(a, c) {
      if MentionRank(a.mention) == MentionRank(b.mention) == MentionRank(c.mention)
         && ClasseKey(a.classe) == ClasseKey(b.classe) == ClasseKey(c.classe) {
        Sorting.StrCompareTransitive(MatriculeKey(a.matricule), MatriculeKey(b.matricule), MatriculeKey(c.matricule));
      }
    }
  }

  /** What a sorted user table looks like: mentions in their order, then
      classes ascending, then registration numbers ascending. */
  lemma UserOrder(s: seq<User>, i: int, j: int)
    requires Sorting.Sorted(s, UserLe) && 0 <= i < j < |s|
    ensures MentionRank(s[i].mention) <= MentionRank(s[j].mention)
    ensures MentionRank(s[i].mention) == MentionRank(s[j].mention) ==> ClasseKey(s[i].classe) <= ClasseKey(s[j].classe)
    ensures MentionRank(s[i].mention) == MentionRank(s[j].mention) && ClasseKey(s[i].classe) == ClasseKey(s[j].classe) ==>
      Sorting.StrCompare(MatriculeKey(s[i].matricule), MatriculeKey(s[j].matricule)) <= 0
  {
    assert UserLe(s[i], s[j]);
  }

  /** The table holds, sorted, the users the search keeps. */
  ghost predicate SortedSearch(shown: seq<User>, users: seq<User>, query: string) {
    Sorting.Sorted(shown, UserLe) && multiset(shown) == multiset(NameSearch(users, UserName, query))
  }

  /** The user management page. */
  class UserManagementPage {
    var users: seq<User>
    var filteredUsers: seq<User>
    var query: string
    var broken: bool
    var notification: Option<string>

    /** Unless the search has thrown, every user has a name and the table
      holds the sorted users the search keeps. */
    ghost predicate Valid()
      reads this
    {
      !broken ==> AllNamed(users, UserName) && SortedSearch(filteredUsers, users, query)
    }

    /** The sort-and-search effect, run whenever the users or the query
      change: sort a copy, then search it. */
    method SortAndSearch()
      modifies this`filteredUsers, this`broken
      ensures Valid()
      ensures AllNamed(users, UserName) ==> broken == old(broken) && SortedSearch(filteredUsers, users, query)
      ensures !AllNamed(users, UserName) ==> broken && filteredUsers == old(filteredUsers)
    {
      UserLeTotalPreorder();
      var sorted := Sorting.SortedCopy(users, UserLe);
      var r := StrictNameSearch(sorted, UserName, query);
      StrictSearchIffNamed(sorted, UserName, query);
      SameElementsNamed(sorted, users, UserName);
      if r.None? {
        broken := true;
        return;
      }
      filteredUsers := r.value;
      SearchOfSorted(sorted, users, UserName, query, UserLe);
    }

    constructor (loaded: seq<User>)
      ensures users == loaded && query == "" && notification == None
      ensures Valid()
      ensures broken <==> !AllNamed(loaded, UserName)
    {
      users := loaded;
      filteredUsers := loaded;
      query := "";
      broken := false;
      notification := None;
      new;
      SortAndSearch();
    }

    method SetQuery(q: string)
      modifies this`query, this`filteredUsers, this`broken
      ensures query == q && Valid()
      ensures broken <==> old(broken) || !AllNamed(users, UserName)
    {
      query := q;
      SortAndSearch();
    }

    /** `handleDelete`: on success both lists lose the user, then the effect
      sorts and searches the shortened list again. */
    method HandleDelete(d: int, ok: bool)
      requires Valid()
      modifies this`users, this`filteredUsers, this`broken, this`notification
      ensures Valid() && broken == old(broken)
      ensures ok ==> users == DeleteById(old(users), UserId, d) && notification == Some("Utilisateur supprimé avec succès !")
      ensures ok ==> forall i :: 0 <= i < |filteredUsers| ==> filteredUsers[i].id != d
      ensures !ok ==> (users == old(users) && filteredUsers == old(filteredUsers)
        && notification == Some("Erreur lors de la suppression de l’utilisateur."))
    {
      if !ok {
        notification := Some("Erreur lors de la suppression de l’utilisateur.");
        return;
      }
      if !broken {
        DeleteKeepsNamed(users, UserName, UserId, d);
      }
      users := DeleteById(users, UserId, d);
      filteredUsers := DeleteById(filteredUsers, UserId, d);
      notification := Some("Utilisateur supprimé avec succès !");
      SortAndSearch();
      forall i | 0 <= i < |filteredUsers| ensures filteredUsers[i].id != d {
        if AllNamed(users, UserName) {
          var x := filteredUsers[i];
          assert x in multiset(NameSearch(users, UserName, query));
          var k :| 0 <= k < |NameSearch(users, UserName, query)| && NameSearch(users, UserName, query)[k] == x;
          assert x in users;
        }
      }
    }
  }

  // ---------------------------------------------------------------------
  // Elections on the admin pages: newest start first
  // ---------------------------------------------------------------------

  function ElectionId(e: Election): int { e.id }

  /** `new Date(b.startdate) - new Date(a.startdate) <= 0`. */
  predicate StartDescLe(a: Election, b: Election) {
    StartMs(b) - StartMs(a) <= 0
  }

  lemma StartDescLeTotalPreorder()
    ensures Sorting.TotalPreorder(StartDescLe)
  {
  }

  /** `electionData.sort(...)`: in place, latest start first. */
  method SortByStartDesc(a: array<Election>)
    modifies a
    ensures forall i, j :: 0 <= i < j < a.Length ==> StartMs(a[i]) >= StartMs(a[j])
    ensures multiset(a[..]) == old(multiset(a[..]))
  {
    StartDescLeTotalPreorder();
    Sorting.SortInPlace(a, StartDescLe);
    forall i, j | 0 <= i < j < a.Length ensures StartMs(a[i]) >= StartMs(a[j]) {
      assert StartDescLe(a[..][i], a[..][j]);
    }
  }

  /** `elections.filter(e => e.statut === 'ouvert').length`. */
  function OpenCount(es: seq<Election>): nat {
    CountWhere(es, (e: Election) => e.statut == Ouvert)
  }

  function ClosedCount(es: seq<Election>): nat {
    CountWhere(es, (e: Election) => e.statut == Ferme)
  }

  /** The two slices of the status chart never overlap, and cover every
      election when each status is one of the two. */
  lemma {:induction false} StatusCounts(es: seq<Election>)
    ensures OpenCount(es) + ClosedCount(es) <= |es|
    ensures (forall i :: 0 <= i < |es| ==> es[i].statut == Ouvert || es[i].statut == Ferme) ==>
      OpenCount(es) + ClosedCount(es) == |es|
  {
    if es != [] {
      StatusCounts(es[1..]);
      if forall i :: 0 <= i < |es| ==> es[i].statut == Ouvert || es[i].statut == Ferme {
        forall i | 0 <= i < |es[1..]| ensures es[1..][i].statut == Ouvert || es[1..][i].statut == Ferme {
          assert es[1..][i] == es[i + 1];
        }
      }
    }
  }

  // ---------------------------------------------------------------------
  // The dashboard carousel
  // ---------------------------------------------------------------------

  /** `prev === 0 ? length - 1 : prev - 1`. */
  function PrevIndex(i: int, n: int): int {
    if i == 0 then n - 1 else i - 1
  }

  /** `prev === length - 1 ? 0 : prev + 1`. */
  function NextIndex(i: int, n: int): int {
    if i == n - 1 then 0 else i + 1
  }

  /** Over a non-empty list the buttons keep the index in range and undo
      each other. */
  lemma CarouselWraps(i: int, n: int)
    requires 0 <= i < n
    ensures 0 <= PrevIndex(i, n) < n && 0 <= NextIndex(i, n) < n
    ensures NextIndex(PrevIndex(i, n), n) == i && PrevIndex(NextIndex(i, n), n) == i
    ensures i == 0 ==> PrevIndex(i, n) == n - 1
    ensures i == n - 1 ==> NextIndex(i, n) == 0
  {
  }

  /** The index after a delete, as written: left as it was. */
  function IndexAfterDeleteAsWritten(i: int, n: int): int {
    i
  }

  function NextTimes(i: int, n: int, k: nat): int
    decreases k
  {
    if k == 0 then i else NextTimes(NextIndex(i, n), n, k - 1)
  }

  /** From an index past the end, 'next' only moves further away. */
  lemma {:induction false} NextDriftsAway(i: int, n: int, k: nat)
    requires i >= n
    decreases k
    ensures NextTimes(i, n, k) == i + k
  {
    if k > 0 {
      NextDriftsAway(i + 1, n, k - 1);
    }
  }

  /** Three elections, the third shown, one deleted: two remain, so the
      buttons are enabled, yet no election is shown and no number of 'next'
      clicks brings one back. */
  lemma DeleteLeavesCarouselPastEnd(k: nat)
    ensures var i := IndexAfterDeleteAsWritten(2, 2);
      !(0 <= i < 2) && !(0 <= NextTimes(i, 2, k) < 2)
  {
    NextDriftsAway(2, 2, k);
  }

  /** The index after a delete, kept on the last election when it falls
      past the end. */
  function ClampIndex(i: int, n: int): (r: int)
    requires 0 <= i
    ensures n > 0 ==> 0 <= r < n
    ensures n <= 0 ==> r == 0
    ensures 0 <= i < n ==> r == i
  {
    if n <= 0 then 0 else if i >= n then n - 1 else i
  }

  /** The dashboard's first search, with the empty query: both searched
      lists and whether the search threw. */
  function InitialSearch(es: seq<Election>, us: seq<User>): (r: (seq<Election>, seq<User>, bool))
    ensures r.2 <==> !AllNamed(es, ElectionName) || !AllNamed(us, UserName)
    ensures !r.2 ==> r.0 == SearchByName(es, "") && r.1 == NameSearch(us, UserName, "")
  {
    var re := StrictSearch(es, "");
    var ru := StrictNameSearch(us, UserName, "");
    StrictSearchIffNamed(es, ElectionName, "");
    StrictSearchIffNamed(us, UserName, "");
    (if re.Some? then re.value else es, if ru.Some? then ru.value else us, re.None? || ru.None?)
  }

  /** The admin dashboard: elections and users with their searched lists,
      the query, the carousel index. */
  class AdminDashboardPage {
    var elections: seq<Election>
    var filteredElections: seq<Election>
    var users: seq<User>
    var filteredUsers: seq<User>
    var query: string
    var index: int
    var broken: bool
    var notification: Option<string>

    ghost predicate Valid()
      reads this
    {
      && 0 <= index && (index < |elections| || index == 0)
      && (!broken ==> Searched(elections, filteredElections, ElectionName, query))
      && (!broken ==> Searched(users, filteredUsers, UserName, query))
    }

    /** The election shown by the carousel (`elections[index] || {}`). */
    function CurrentElection(): (r: Option<Election>)
      reads this
      ensures r.Some? <==> 0 <= index < |elections|
      ensures r.Some? ==> r.value == elections[index]
    {
      if 0 <= index < |elections| then Some(elections[index]) else None
    }

    /** The search effect over both lists. */
    method ApplySearch()
      requires 0 <= index && (index < |elections| || index == 0)
      modifies this`filteredElections, this`filteredUsers, this`broken
      ensures Valid()
      ensures var re := StrictSearch(elections, query);
        var ru := StrictNameSearch(users, UserName, query);
        && broken == (old(broken) || re.None? || ru.None?)
        && (re.Some? && ru.Some? ==> filteredElections == re.value && filteredUsers == ru.value)
        && (re.None? || ru.None? ==> filteredElections == old(filteredElections) && filteredUsers == old(filteredUsers))
    {
      var re := StrictSearch(elections, query);
      var ru := StrictNameSearch(users, UserName, query);
      StrictSearchIffNamed(elections, ElectionName, query);
      StrictSearchIffNamed(users, UserName, query);
      if re.None? || ru.None? {
        broken := true;
      } else {
        filteredElections := re.value;
        filteredUsers := ru.value;
      }
    }

    /** Mounting: the loaded elections sorted in place, newest first, then
      the search effect. */
    constructor (loaded: array<Election>, loadedUsers: seq<User>)
      modifies loaded
      ensures forall i, j :: 0 <= i < j < |elections| ==> StartMs(elections[i]) >= StartMs(elections[j])
      ensures multiset(elections) == old(multiset(loaded[..])) && elections == loaded[..]
      ensures users == loadedUsers && query == "" && index == 0 && notification == None
      ensures Valid()
    {
      SortByStartDesc(loaded);
      var sorted := loaded[..];
      var (fe, fu, b) := InitialSearch(sorted, loadedUsers);
      elections := sorted;
      filteredElections := fe;
      users := loadedUsers;
      filteredUsers := fu;
      query := "";
      index := 0;
      broken := b;
      notification := None;
    }

    method SetQuery(q: string)
      requires Valid()
      modifies this`query, this`filteredElections, this`filteredUsers, this`broken
      ensures query == q && Valid()
    {
      query := q;
      ApplySearch();
    }

    /** `handleDeleteElection`, with the carousel index clamped. */
    method DeleteElection(d: int, ok: bool)
      requires Valid()
      modifies this`elections, this`filteredElections, this`index, this`notification
      ensures Valid()
      ensures ok ==> (elections == DeleteById(old(elections), ElectionId, d)
        && filteredElections == DeleteById(old(filteredElections), ElectionId, d)
        && index == ClampIndex(old(index), |elections|)
        && notification == Some("Élection supprimée avec succès !"))
      ensures !ok ==> (elections == old(elections) && filteredElections == old(filteredElections) && index == old(index)
        && notification == Some("Erreur lors de la suppression de l’élection."))
    {
      if !ok {
        notification := Some("Erreur lors de la suppression de l’élection.");
        return;
      }
      var es := DeleteById(elections, ElectionId, d);
      var fs := DeleteById(filteredElections, ElectionId, d);
      var i := ClampIndex(index, |es|);
      if !broken {
        DeleteKeepsSearch(elections, filteredElections, ElectionName, query, ElectionId, d);
        assert Searched(es, fs, ElectionName, query);
      }
      elections, filteredElections, index := es, fs, i;
      notification := Some("Élection supprimée avec succès !");
    }

    method DeleteUser(d: int, ok: bool)
      requires Valid()
      modifies this`users, this`filteredUsers, this`notification
      ensures Valid()
      ensures ok ==> (users == DeleteById(old(users), UserId, d)
        && filteredUsers == DeleteById(old(filteredUsers), UserId, d)
        && notification == Some("Utilisateur supprimé avec succès !"))
      ensures !ok ==> (users == old(users) && filteredUsers == old(filteredUsers)
        && notification == Some("Erreur lors de la suppression de l’utilisateur."))
    {
      if !ok {
        notification := Some("Erreur lors de la suppression de l’utilisateur.");
        return;
      }
      if !broken {
        DeleteKeepsSearch(users, filteredUsers, UserName, query, UserId, d);
      }
      var us := DeleteById(users, UserId, d);
      var fs := DeleteById(filteredUsers, UserId, d);
      users, filteredUsers := us, fs;
      notification := Some("Utilisateur supprimé avec succès !");
    }

    /** The carousel buttons are disabled unless there are two elections. */
    method Previous()
      requires Valid() && |elections| > 1
      modifies this`index
      ensures Valid() && index == PrevIndex(old(index), |elections|)
    {
      CarouselWraps(index, |elections|);
      index := PrevIndex(index, |elections|);
    }

    method Next()
      requires Valid() && |elections| > 1
      modifies this`index
      ensures Valid() && index == NextIndex(old(index), |elections|)
    {
      CarouselWraps(index, |elections|);
      index := NextIndex(index, |elections|);
    }
  }

  /** The election management page: sorted like the dashboard, searched and
      deleted the same way. */
  class ElectionManagementPage {
    var elections: seq<Election>
    var filtered: seq<Election>
    var query: string
    var broken: bool
    var notification: Option<string>

    ghost predicate Valid()
      reads this
    {
      !broken ==> AllNamed(elections, ElectionName) && filtered == SearchByName(elections, query)
    }

    method ApplySearch()
      modifies this`filtered, this`broken
      ensures var r := StrictSearch(elections, query);
        && broken == (old(broken) || r.None?)
        && (r.Some? ==> filtered == r.value)
        && (r.None? ==> filtered == old(filtered))
      ensures Valid()
    {
      var r := StrictSearch(elections, query);
      StrictSearchIffNamed(elections, ElectionName, query);
      if r.None? {
        broken := true;
      } else {
        filtered := r.value;
      }
    }

    constructor (loaded: array<Election>)
      modifies loaded
      ensures forall i, j :: 0 <= i < j < |elections| ==> StartMs(elections[i]) >= StartMs(elections[j])
      ensures multiset(elections) == old(multiset(loaded[..])) && elections == loaded[..]
      ensures query == "" && notification == None
      ensures Valid()
    {
      SortByStartDesc(loaded);
      var sorted := loaded[..];
      var r := StrictSearch(sorted, "");
      StrictSearchIffNamed(sorted, ElectionName, "");
      elections := sorted;
      filtered := if r.Some? then r.value else sorted;
      query := "";
      broken := r.None?;
      notification := None;
    }

    method SetQuery(q: string)
      modifies this`query, this`filtered, this`broken
      ensures query == q && Valid()
    {
      query := q;
      ApplySearch();
    }

    method HandleDelete(d: int, ok: bool)
      requires Valid()
      modifies this`elections, this`filtered, this`notification
      ensures Valid()
      ensures ok ==> (elections == DeleteById(old(elections), ElectionId, d)
        && filtered == DeleteById(old(filtered), ElectionId, d)
        && notification == Some("Élection supprimée avec succès !"))
      ensures !ok ==> (elections == old(elections) && filtered == old(filtered)
        && notification == Some("Erreur lors de la suppression de l’élection."))
    {
      if !ok {
        notification := Some("Erreur lors de la suppression de l’élection.");
        return;
      }
      if !broken {
        DeleteKeepsSearch(elections, filtered, ElectionName, query, ElectionId, d);
      }
      var es := DeleteById(elections, ElectionId, d);
      var fs := DeleteById(filtered, ElectionId, d);
      elections, filtered := es, fs;
      notification := Some("Élection supprimée avec succès !");
    }
  }
}
