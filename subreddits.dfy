/**
 * The category table and the sub-Reddit catalog (techsubs/subreddits.py).
 *
 * CATALOG is a dictionary the module fills by nine calls of
 * `simple_add_to_category` and then rebinds to a copy ordered by
 * lower-cased name; it is modelled by the class `Catalog`, whose state is
 * the entry map together with the key order.
 */
module Subreddits {
  import opened Sorting

  const CATEGORY_CONTAINERIZATION: string := "containerization"
  const CATEGORY_DATABASES: string := "databases"
  const CATEGORY_SECURITY: string := "security-and-hacking"
  const CATEGORY_NETWORKING: string := "networking"
  const CATEGORY_OPERATING_SYSTEMS: string := "operating-systems"
  const CATEGORY_PLATFORM_INFRASTRUCTURE: string := "platform-and-infrastructure"
  const CATEGORY_PROGRAMMING_LANG: string := "programming-language"
  const CATEGORY_OPERATIONS_ADMINISTRATION: string := "operations-and-administration"
  const CATEGORY_PROGRAMMING_AND_COMP_SCI: string := "programming-and-comp-sci"

  datatype Category = Category(slug: string, humanName: string, description: string)

  /** The values of the category dictionary literal, in the order they are written. */
  const CATEGORY_LIST: seq<Category> := [
    Category(CATEGORY_PROGRAMMING_LANG, "Programming languages",
      "Subreddits dedicated to specific programming languages."),
    Category(CATEGORY_CONTAINERIZATION, "Containerization", "Docker, rkt, Container orchestration, etc."),
    Category(CATEGORY_DATABASES, "Databases", "It's where the data goes."),
    Category(CATEGORY_NETWORKING, "Networking", "Everything you never wanted to know about BGP."),
    Category(CATEGORY_OPERATING_SYSTEMS, "Operating Systems", "Operating systems, distributions, and other friends."),
    Category(CATEGORY_OPERATIONS_ADMINISTRATION, "Operations and Administration",
      "Provisioning, Configuration, Administration, and Deployment."),
    Category(CATEGORY_PLATFORM_INFRASTRUCTURE, "Platform and Infrastructure", "IaaS, PaaS, Bare metal, oh my!"),
    Category(CATEGORY_PROGRAMMING_AND_COMP_SCI, "Programming and Comp Sci",
      "Software Development, Comp Sci, self-improvement stuff."),
    Category(CATEGORY_SECURITY, "Security and Hacking",
      "Securing systems, intrusion detection, penetration testing, etc.")
  ]

  /** The items of the dictionary literal: each category keyed by its slug. */
  function KeyedBySlug(cs: seq<Category>): (r: seq<(string, Category)>)
    ensures |r| == |cs|
    ensures forall i :: 0 <= i < |cs| ==> r[i] == (cs[i].slug, cs[i])
  {
    if cs == [] then [] else KeyedBySlug(cs[..|cs| - 1]) + [(cs[|cs| - 1].slug, cs[|cs| - 1])]
  }

  function ItemKey(item: (string, Category)): string {
    item.0
  }

  /**
   * CATEGORIES: the items in ascending key order. The keys are distinct, so
   * sorting the (key, value) tuples orders them by key alone. The `key=`
   * argument reaches the OrderedDict rather than `sorted` and adds an entry
   * `'key'`, which the module deletes at once; it does not appear here.
   */
  const CATEGORIES: seq<(string, Category)> := Table(CATEGORY_LIST)

  /** `is_valid_subreddit_category`: membership among the CATEGORIES keys. */
  predicate IsValidSubredditCategory(category: string) {
    exists i :: 0 <= i < |CATEGORIES| && CATEGORIES[i].0 == category
  }

  /** The category table built from `cs`: keyed by slug, in ascending key order. */
  function Table(cs: seq<Category>): seq<(string, Category)> {
    SortBy(KeyedBySlug(cs), ItemKey)
  }

  /** The table is as long as the list and holds each value under its own slug. */
  lemma TableEntries(cs: seq<Category>)
    ensures |Table(cs)| == |cs|
    ensures forall i :: 0 <= i < |Table(cs)| ==> Table(cs)[i].1.slug == Table(cs)[i].0
  {
    var items := KeyedBySlug(cs);
    var t := Table(cs);
    forall i | 0 <= i < |t|
      ensures t[i].1.slug == t[i].0
    {
      SortByMembers(items, ItemKey, t[i]);
    }
    assert |multiset(t)| == |multiset(items)|;
  }

  /** The table's keys are exactly the slugs of `cs`. */
  lemma TableKeys(cs: seq<Category>, c: string)
    ensures (exists i :: 0 <= i < |Table(cs)| && Table(cs)[i].0 == c) <==> (exists j :: 0 <= j < |cs| && cs[j].slug == c)
  {
    var items := KeyedBySlug(cs);
    var t := Table(cs);
    if exists i :: 0 <= i < |t| && t[i].0 == c {
      var i :| 0 <= i < |t| && t[i].0 == c;
      SortByMembers(items, ItemKey, t[i]);
      var j :| 0 <= j < |items| && items[j] == t[i];
      assert cs[j].slug == c;
    }
    if exists j :: 0 <= j < |cs| && cs[j].slug == c {
      var j :| 0 <= j < |cs| && cs[j].slug == c;
      SortByMembers(items, ItemKey, items[j]);
      var i :| 0 <= i < |t| && t[i] == items[j];
      assert t[i].0 == c;
    }
  }

  /** The table holds the nine categories, in ascending key order, each under its own slug. */
  lemma CategoriesSortedWithSlugKeys()
    ensures SortedBy(CATEGORIES, ItemKey)
    ensures |CATEGORIES| == |CATEGORY_LIST|
    ensures forall i :: 0 <= i < |CATEGORIES| ==> CATEGORIES[i].1.slug == CATEGORIES[i].0
  {
    SortBySorted(KeyedBySlug(CATEGORY_LIST), ItemKey);
    TableEntries(CATEGORY_LIST);
  }

  /** A category is valid exactly when it is the slug of one of the nine. */
  lemma ValidCategoryIsSlug(category: string)
    ensures IsValidSubredditCategory(category)
        <==> exists j :: 0 <= j < |CATEGORY_LIST| && CATEGORY_LIST[j].slug == category
  {
    TableKeys(CATEGORY_LIST, category);
  }

  /** Every category the population calls use is valid. */
  lemma UsedCategoriesValid()
    ensures forall i :: 0 <= i < |POPULATION| ==> IsValidSubredditCategory(POPULATION[i].0)
  {
    forall i | 0 <= i < |POPULATION|
      ensures IsValidSubredditCategory(POPULATION[i].0)
    {
      var j := [0, 1, 3, 4, 6, 7, 5, 2, 8][i];
      assert CATEGORY_LIST[j].slug == POPULATION[i].0;
      ValidCategoryIsSlug(POPULATION[i].0);
    }
  }

  /** The `'key'` entry the stray argument adds is deleted: it is not a valid category. */
  lemma KeyIsNotACategory()
    ensures !IsValidSubredditCategory("key")
  {
    ValidCategoryIsSlug("key");
    NoSlugIsKey();
  }

  lemma NoSlugIsKey()
    ensures !exists j :: 0 <= j < |CATEGORY_LIST| && CATEGORY_LIST[j].slug == "key"
  {
  }

  // ---------------------------------------------------------------------
  // The catalog

  /** A catalog value: `{'slug': ..., 'categories': [...]}`. */
  datatype Entry = Entry(slug: string, categories: seq<string>)

  /** A dictionary from sub-Reddit name to entry, with its key order. */
  datatype CatalogState = CatalogState(entries: map<string, Entry>, order: seq<string>)

  /** The order lists each key exactly once; every entry has its own name as slug and some category. */
  ghost predicate WellFormed(s: CatalogState) {
    && (forall k :: multiset(s.order)[k] == if k in s.entries then 1 else 0)
    && (forall k :: k in s.entries ==> s.entries[k].slug == k && |s.entries[k].categories| > 0)
  }

  /** One step of the loop of `simple_add_to_category`. */
  function AddOne(s: CatalogState, category: string, name: string): CatalogState {
    if name !in s.entries then CatalogState(s.entries[name := Entry(name, [category])], s.order + [name])
    else CatalogState(s.entries[name := s.entries[name].(categories := s.entries[name].categories + [category])],
                      s.order)
  }

  /** The effect of `simple_add_to_category(category, names)`. */
  function AddToCategory(s: CatalogState, category: string, names: seq<string>): CatalogState {
    if names == [] then s
    else AddOne(AddToCategory(s, category, names[..|names| - 1]), category, names[|names| - 1])
  }

  function Count(x: string, xs: seq<string>): nat {
    if xs == [] then 0 else Count(x, xs[..|xs| - 1]) + (if xs[|xs| - 1] == x then 1 else 0)
  }

  function Repeat(x: string, n: nat): (r: seq<string>)
    ensures |r| == n && forall i :: 0 <= i < n ==> r[i] == x
  {
    if n == 0 then [] else Repeat(x, n - 1) + [x]
  }

  lemma {:induction false} AddToCategoryWellFormed(s: CatalogState, category: string, names: seq<string>)
    requires WellFormed(s)
    ensures WellFormed(AddToCategory(s, category, names))
    ensures s.order <= AddToCategory(s, category, names).order
  {
    if names != [] {
      var prev := AddToCategory(s, category, names[..|names| - 1]);
      AddToCategoryWellFormed(s, category, names[..|names| - 1]);
      var name := names[|names| - 1];
      if name !in prev.entries {
        assert multiset(prev.order + [name]) == multiset(prev.order) + multiset{name};
      }
    }
  }

  /** The categories `k` already has in `s` (none when it is absent). */
  function Prior(s: CatalogState, k: string): seq<string> {
    if k in s.entries then s.entries[k].categories else []
  }

  /**
   * What `simple_add_to_category(category, names)` does to one key: a
   * listed name gets `category` appended once per listing (an absent name
   * is created with its own name as slug); any other key is unchanged.
   */
  lemma {:induction false} AddToCategoryEntry(s: CatalogState, category: string, names: seq<string>, k: string)
    requires WellFormed(s)
    ensures k in AddToCategory(s, category, names).entries <==> k in s.entries || k in names
    ensures k in AddToCategory(s, category, names).entries ==>
      AddToCategory(s, category, names).entries[k] == Entry(k, Prior(s, k) + Repeat(category, Count(k, names)))
  {
    if names == [] {
      assert Prior(s, k) + [] == Prior(s, k);
    } else {
      var init := names[..|names| - 1];
      var name := names[|names| - 1];
      var prev := AddToCategory(s, category, init);
      AddToCategoryEntry(s, category, init, k);
      assert names == init + [name];
      var r := AddOne(prev, category, name);
      assert r == AddToCategory(s, category, names);
      if k == name {
        if k in prev.entries {
          assert r.entries[k].categories == Prior(s, k) + Repeat(category, Count(k, init)) + [category];
        } else {
          CountPositive(k, init);
          assert r.entries[k].categories == Prior(s, k) + Repeat(category, Count(k, names));
        }
      }
    }
  }

  /** A name is counted exactly when it is listed. */
  lemma {:induction false} CountPositive(x: string, xs: seq<string>)
    ensures Count(x, xs) > 0 <==> x in xs
  {
    if xs != [] {
      CountPositive(x, xs[..|xs| - 1]);
      assert xs == xs[..|xs| - 1] + [xs[|xs| - 1]];
    }
  }

  /** Every listed name ends up in the catalog, under its own slug, with `category` as its last category. */
  lemma AddToCategoryLast(s: CatalogState, category: string, names: seq<string>, k: string)
    requires WellFormed(s) && k in names
    ensures var r := AddToCategory(s, category, names);
      && k in r.entries && r.entries[k].slug == k && |r.entries[k].categories| > 0
      && r.entries[k].categories[|r.entries[k].categories| - 1] == category
  {
    AddToCategoryEntry(s, category, names, k);
    CountPositive(k, names);
  }

  /** `get_subreddits_in_category`: the entries listing `category`, in catalog order. */
  function SubredditsInCategory(s: CatalogState, category: string): (r: seq<Entry>)
    requires forall k :: k in s.order ==> k in s.entries
  {
    InCategory(s.entries, s.order, category)
  }

  function InCategory(entries: map<string, Entry>, keys: seq<string>, category: string): (r: seq<Entry>)
    requires forall k :: k in keys ==> k in entries
    ensures |r| <= |keys|
    ensures forall e :: e in r ==> category in e.categories
    ensures forall e :: e in r <==> exists i :: 0 <= i < |keys| && entries[keys[i]] == e && category in e.categories
  {
    if keys == [] then []
    else
      var init := InCategory(entries, keys[..|keys| - 1], category);
      var e := entries[keys[|keys| - 1]];
      assert forall i :: 0 <= i < |keys| - 1 ==> keys[..|keys| - 1][i] == keys[i];
      if category in e.categories then init + [e] else init
  }

  /** The filter keeps catalog order: filtering a split catalog is filtering each part. */
  lemma {:induction false} InCategoryConcat(entries: map<string, Entry>, a: seq<string>, b: seq<string>, category: string)
    requires forall k :: k in a + b ==> k in entries
    ensures InCategory(entries, a + b, category) == InCategory(entries, a, category) + InCategory(entries, b, category)
    decreases |b|
  {
    if b == [] {
      assert a + b == a;
    } else {
      assert (a + b)[..|a + b| - 1] == a + b[..|b| - 1];
      InCategoryConcat(entries, a, b[..|b| - 1], category);
    }
  }

  // ---------------------------------------------------------------------
  // Population

  const LANGUAGE_SUBREDDITS: seq<string> := [
    "python", "ruby", "golang", "java", "cplusplus", "csharp",
    "C_Programming", "cpp", "haskell", "php", "scala", "javascript",
    "perl", "swift", "d_language", "Rlanguage", "matlab", "dartlang",
    "ocaml", "lisp", "fsharp", "erlang", "lua", "visualbasic", "SQL",
    "rust", "asm"]
  const CONTAINER_SUBREDDITS: seq<string> := ["docker", "kubernetes", "mesos", "coreos", "openshift"]
  const NETWORKING_SUBREDDITS: seq<string> := [
    "netsec", "ccna", "darknetplan", "AskNetsec", "wireless", "networking", "HomeNetworking"]
  const OS_SUBREDDITS: seq<string> := ["linux", "linux4noobs", "ubuntu", "bsd", "osx", "windows", "unix"]
  const PLATFORM_SUBREDDITS: seq<string> := ["aws", "googlecloud", "AZURE", "openstack"]
  const PROGRAMMING_SUBREDDITS: seq<string> := [
    "programming", "learnprogramming", "ProgrammerHumor", "dailyprogrammer", "coding", "shittyprogramming"]
  const OPERATIONS_SUBREDDITS: seq<string> := [
    "vagrant", "chef_opscode", "Puppet", "ansible", "saltstack", "iiiiiiitttttttttttt", "sysadmin"]
  const DATABASE_SUBREDDITS: seq<string> := [
    "postgres", "mariadb", "mysql", "cassandra", "CouchDB", "mongodb", "rethinkdb"]
  const SECURITY_SUBREDDITS: seq<string> := [
    "security", "netsec", "ComputerSecurity", "compsec", "AskNetsec",
    "hacking", "pwned", "SecurityAnalysis", "securityCTF", "HowToHack", "blackhat"]

  /** The nine population calls, in module order. */
  const POPULATION: seq<(string, seq<string>)> := [
    (CATEGORY_PROGRAMMING_LANG, LANGUAGE_SUBREDDITS),
    (CATEGORY_CONTAINERIZATION, CONTAINER_SUBREDDITS),
    (CATEGORY_NETWORKING, NETWORKING_SUBREDDITS),
    (CATEGORY_OPERATING_SYSTEMS, OS_SUBREDDITS),
    (CATEGORY_PLATFORM_INFRASTRUCTURE, PLATFORM_SUBREDDITS),
    (CATEGORY_PROGRAMMING_AND_COMP_SCI, PROGRAMMING_SUBREDDITS),
    (CATEGORY_OPERATIONS_ADMINISTRATION, OPERATIONS_SUBREDDITS),
    (CATEGORY_DATABASES, DATABASE_SUBREDDITS),
    (CATEGORY_SECURITY, SECURITY_SUBREDDITS)]

  /** Applying the population calls `calls`, in order, to `s`. */
  function Populate(s: CatalogState, calls: seq<(string, seq<string>)>): CatalogState {
    if calls == [] then s
    else AddToCategory(Populate(s, calls[..|calls| - 1]), calls[|calls| - 1].0, calls[|calls| - 1].1)
  }

  /** The final CATALOG: the populated dictionary, its keys sorted by lower-cased name. */
  function Lowered(name: string): string {
    Lower(name)
  }

  function CatalogContents(): CatalogState {
    var populated := Populate(CatalogState(map[], []), POPULATION);
    CatalogState(populated.entries, SortBy(populated.order, Lowered))
  }

  class Catalog {
    var entries: map<string, Entry>
    var order: seq<string>

    function State(): CatalogState
      reads this
    {
      CatalogState(entries, order)
    }

    /** The module-level population: an empty dictionary, the nine calls, then the re-sort. */
    constructor ()
      ensures State() == CatalogContents()
    {
      entries := map[];
      order := [];
      new;
      var i := 0;
      while i < |POPULATION|
        invariant 0 <= i <= |POPULATION|
        invariant State() == Populate(CatalogState(map[], []), POPULATION[..i])
      {
        assert POPULATION[..i + 1][..i] == POPULATION[..i];
        SimpleAddToCategory(POPULATION[i].0, POPULATION[i].1);
        i := i + 1;
      }
      assert POPULATION[..i] == POPULATION;
      SortCatalog();
    }

    /** `simple_add_to_category`: appends `category` to each listed name, creating missing entries. */
    method SimpleAddToCategory(category: string, subreddits: seq<string>)
      modifies this
      ensures State() == AddToCategory(old(State()), category, subreddits)
    {
      var i := 0;
      while i < |subreddits|
        invariant 0 <= i <= |subreddits|
        invariant State() == AddToCategory(old(State()), category, subreddits[..i])
      {
        assert subreddits[..i + 1][..i] == subreddits[..i];
        var subreddit := subreddits[i];
        if subreddit !in entries {
          entries := entries[subreddit := Entry(subreddit, [category])];
          order := order + [subreddit];
        } else {
          entries := entries[subreddit := entries[subreddit].(categories := entries[subreddit].categories + [category])];
        }
        i := i + 1;
      }
      assert subreddits[..i] == subreddits;
    }

    /** `CATALOG = OrderedDict(sorted(CATALOG.items(), key=lambda t: t[0].lower()))`. */
    method SortCatalog()
      modifies this
      ensures entries == old(entries)
      ensures order == SortBy(old(order), Lowered)
    {
      order := SortBy(order, Lowered);
    }
  }

  /** The catalog is well formed and its keys are ordered case-insensitively. */
  lemma CatalogWellFormedAndSorted()
    ensures WellFormed(CatalogContents())
    ensures SortedBy(CatalogContents().order, Lowered)
  {
    PopulateWellFormed(CatalogState(map[], []), POPULATION);
    var populated := Populate(CatalogState(map[], []), POPULATION);
    SortBySorted(populated.order, Lowered);
    forall k
      ensures multiset(CatalogContents().order)[k] == if k in CatalogContents().entries then 1 else 0
    {
      assert multiset(CatalogContents().order) == multiset(populated.order);
    }
  }

  lemma {:induction false} PopulateWellFormed(s: CatalogState, calls: seq<(string, seq<string>)>)
    requires WellFormed(s)
    ensures WellFormed(Populate(s, calls))
  {
    if calls != [] {
      PopulateWellFormed(s, calls[..|calls| - 1]);
      AddToCategoryWellFormed(Populate(s, calls[..|calls| - 1]), calls[|calls| - 1].0, calls[|calls| - 1].1);
    }
  }

  /** The categories the calls give `k`: each call's category once per listing of `k`, in call order. */
  function CategoriesOf(k: string, calls: seq<(string, seq<string>)>): seq<string> {
    if calls == [] then []
    else CategoriesOf(k, calls[..|calls| - 1]) + Repeat(calls[|calls| - 1].0, Count(k, calls[|calls| - 1].1))
  }

  /** The effect of a run of population calls on one key. */
  lemma {:induction false} PopulateEntry(s: CatalogState, calls: seq<(string, seq<string>)>, k: string)
    requires WellFormed(s)
    ensures k in Populate(s, calls).entries <==> k in s.entries || |CategoriesOf(k, calls)| > 0
    ensures k in Populate(s, calls).entries ==>
      Populate(s, calls).entries[k] == Entry(k, Prior(s, k) + CategoriesOf(k, calls))
  {
    if calls == [] {
      assert Prior(s, k) + [] == Prior(s, k);
    } else {
      var init := calls[..|calls| - 1];
      PopulateEntry(s, init, k);
      PopulateWellFormed(s, init);
      PopulateStep(Populate(s, init), s, calls[|calls| - 1], k, CategoriesOf(k, init));
    }
  }

  /** One population call, applied to a state in which `k` has `before` beyond its categories in `s`. */
  lemma PopulateStep(prev: CatalogState, s: CatalogState, call: (string, seq<string>), k: string, before: seq<string>)
    requires WellFormed(prev)
    requires k in prev.entries <==> k in s.entries || |before| > 0
    requires k in prev.entries ==> prev.entries[k] == Entry(k, Prior(s, k) + before)
    ensures var r := AddToCategory(prev, call.0, call.1);
      var after := before + Repeat(call.0, Count(k, call.1));
      && (k in r.entries <==> k in s.entries || |after| > 0)
      && (k in r.entries ==> r.entries[k] == Entry(k, Prior(s, k) + after))
  {
    AddToCategoryEntry(prev, call.0, call.1, k);
    CountPositive(k, call.1);
    if k in prev.entries {
      assert Prior(prev, k) == Prior(s, k) + before;
    } else {
      assert Prior(s, k) == [] && before == [];
    }
  }

  /** A name listed once by call `a`, once by a later call `b` and by no other call. */
  lemma {:induction false} ListedTwice(k: string, calls: seq<(string, seq<string>)>, a: nat, b: nat, n: nat)
    requires a < b < |calls| && n <= |calls|
    requires Count(k, calls[a].1) == 1 && Count(k, calls[b].1) == 1
    requires forall i :: 0 <= i < |calls| && i != a && i != b ==> k !in calls[i].1
    ensures CategoriesOf(k, calls[..n]) == (if a < n then [calls[a].0] else []) + (if b < n then [calls[b].0] else [])
  {
    if n > 0 {
      ListedTwice(k, calls, a, b, n - 1);
      assert calls[..n][..n - 1] == calls[..n - 1];
      var i := n - 1;
      if i != a && i != b {
        CountPositive(k, calls[i].1);
      }
    }
  }

  /** `netsec` is listed under networking and then under security. */
  lemma NetsecCategories()
    ensures "netsec" in CatalogContents().entries
    ensures CatalogContents().entries["netsec"].categories == [CATEGORY_NETWORKING, CATEGORY_SECURITY]
  {
    NetsecListings();
    NetworkingAndSecurity("netsec", 0, 1);
  }

  /** So is `AskNetsec`. */
  lemma AskNetsecCategories()
    ensures "AskNetsec" in CatalogContents().entries
    ensures CatalogContents().entries["AskNetsec"].categories == [CATEGORY_NETWORKING, CATEGORY_SECURITY]
  {
    AskNetsecListings();
    NetworkingAndSecurity("AskNetsec", 3, 4);
  }

  /** Where the population lists mention `netsec`. */
  lemma NetsecListings()
    ensures NetworkingOnlyAt("netsec", 0) && SecurityOnlyAt("netsec", 1) && NotListedElsewhere("netsec")
  {
    NetsecNotElsewhere();
  }

  lemma NetsecNotElsewhere()
    ensures NotListedElsewhere("netsec")
  {
  }

  /** Where the population lists mention `AskNetsec`. */
  lemma AskNetsecListings()
    ensures NetworkingOnlyAt("AskNetsec", 3) && SecurityOnlyAt("AskNetsec", 4) && NotListedElsewhere("AskNetsec")
  {
    AskNetsecNotElsewhere();
  }

  lemma AskNetsecNotElsewhere()
    ensures NotListedElsewhere("AskNetsec")
  {
  }

  predicate NetworkingOnlyAt(k: string, i: nat) {
    i < |NETWORKING_SUBREDDITS| && NETWORKING_SUBREDDITS[i] == k
    && k !in NETWORKING_SUBREDDITS[..i] && k !in NETWORKING_SUBREDDITS[i + 1..]
  }

  predicate SecurityOnlyAt(k: string, i: nat) {
    i < |SECURITY_SUBREDDITS| && SECURITY_SUBREDDITS[i] == k
    && k !in SECURITY_SUBREDDITS[..i] && k !in SECURITY_SUBREDDITS[i + 1..]
  }

  predicate NotListedElsewhere(k: string) {
    && k !in LANGUAGE_SUBREDDITS && k !in CONTAINER_SUBREDDITS && k !in OS_SUBREDDITS
    && k !in PLATFORM_SUBREDDITS && k !in PROGRAMMING_SUBREDDITS
    && k !in OPERATIONS_SUBREDDITS && k !in DATABASE_SUBREDDITS
  }

  lemma NetworkingAndSecurity(k: string, ni: nat, si: nat)
    requires NetworkingOnlyAt(k, ni) && SecurityOnlyAt(k, si) && NotListedElsewhere(k)
    ensures k in CatalogContents().entries
    ensures CatalogContents().entries[k].categories == [CATEGORY_NETWORKING, CATEGORY_SECURITY]
  {
    CountOnce(k, NETWORKING_SUBREDDITS, ni);
    CountOnce(k, SECURITY_SUBREDDITS, si);
    OnlyNetworkingAndSecurity(k);
    ListedTwice(k, POPULATION, 2, 8, |POPULATION|);
    assert POPULATION[..|POPULATION|] == POPULATION;
    PopulateEntry(CatalogState(map[], []), POPULATION, k);
  }

  lemma OnlyNetworkingAndSecurity(k: string)
    requires NotListedElsewhere(k)
    ensures forall i :: 0 <= i < |POPULATION| && i != 2 && i != 8 ==> k !in POPULATION[i].1
  {
    forall i | 0 <= i < |POPULATION| && i != 2 && i != 8
      ensures k !in POPULATION[i].1
    {
      assert i == 0 || i == 1 || i == 3 || i == 4 || i == 5 || i == 6 || i == 7;
    }
  }

  lemma CountOnce(x: string, xs: seq<string>, i: nat)
    requires i < |xs| && xs[i] == x && x !in xs[..i] && x !in xs[i + 1..]
    ensures Count(x, xs) == 1
  {
    CountPositive(x, xs[..i]);
    CountPositive(x, xs[i + 1..]);
    CountConcat(x, xs[..i] + [x], xs[i + 1..]);
    CountConcat(x, xs[..i], [x]);
    assert [x][..0] == [];
    assert xs == xs[..i] + [x] + xs[i + 1..];
  }

  lemma {:induction false} CountConcat(x: string, a: seq<string>, b: seq<string>)
    ensures Count(x, a + b) == Count(x, a) + Count(x, b)
    decreases |b|
  {
    if b == [] {
      assert a + b == a;
    } else {
      assert (a + b)[..|a + b| - 1] == a + b[..|b| - 1];
      CountConcat(x, a, b[..|b| - 1]);
    }
  }
  /** Every category a run of calls gives a name is the category of one of the calls. */
  lemma {:induction false} CategoriesOfFromCalls(k: string, calls: seq<(string, seq<string>)>)
    ensures forall c :: c in CategoriesOf(k, calls) ==> exists i :: 0 <= i < |calls| && calls[i].0 == c
  {
    if calls != [] {
      var init := calls[..|calls| - 1];
      CategoriesOfFromCalls(k, init);
      forall c | c in CategoriesOf(k, calls)
        ensures exists i :: 0 <= i < |calls| && calls[i].0 == c
      {
        if c in CategoriesOf(k, init) {
          var i :| 0 <= i < |init| && init[i].0 == c;
          assert calls[i].0 == c;
        } else {
          assert calls[|calls| - 1].0 == c;
        }
      }
    }
  }

  /** Every category listed in the catalog is a valid category. */
  lemma CatalogCategoriesValid(k: string, c: string)
    requires k in CatalogContents().entries && c in CatalogContents().entries[k].categories
    ensures IsValidSubredditCategory(c)
  {
    PopulateEntry(CatalogState(map[], []), POPULATION, k);
    CategoriesOfFromCalls(k, POPULATION);
    UsedCategoriesValid();
    var i :| 0 <= i < |POPULATION| && POPULATION[i].0 == c;
  }

  /** `get_subreddits_in_category` over the catalog: exactly the entries that list the category. */
  lemma SubredditsInCategoryMembers(category: string, e: Entry)
    ensures forall k :: k in CatalogContents().order <==> k in CatalogContents().entries
    ensures e in SubredditsInCategory(CatalogContents(), category)
        <==> exists k :: k in CatalogContents().entries && CatalogContents().entries[k] == e && category in e.categories
  {
    CatalogWellFormedAndSorted();
    var s := CatalogContents();
    WellFormedOrderCovers(s);
    if exists k :: k in s.entries && s.entries[k] == e && category in e.categories {
      var k :| k in s.entries && s.entries[k] == e && category in e.categories;
      assert k in multiset(s.order);
      var i :| 0 <= i < |s.order| && s.order[i] == k;
    }
  }

  lemma WellFormedOrderCovers(s: CatalogState)
    requires WellFormed(s)
    ensures forall k :: k in s.order <==> k in s.entries
  {
    forall k
      ensures k in s.order <==> k in s.entries
    {
      assert k in s.order <==> k in multiset(s.order);
    }
  }

  /** The slug of an entry, lower-cased: the catalog's sort key. */
  function EntryKey(e: Entry): string {
    Lower(e.slug)
  }

  /** The filter of a case-insensitively ordered catalog is ordered the same way. */
  lemma {:induction false} InCategorySorted(entries: map<string, Entry>, keys: seq<string>, category: string)
    requires forall k :: k in keys ==> k in entries && entries[k].slug == k
    requires SortedBy(keys, Lowered)
    ensures SortedBy(InCategory(entries, keys, category), EntryKey)
  {
    if keys != [] {
      var n := |keys| - 1;
      var init := keys[..n];
      assert forall k :: k in init ==> k in keys;
      InCategorySorted(entries, init, category);
      var r0 := InCategory(entries, init, category);
      var e := entries[keys[n]];
      if category in e.categories {
        var r := r0 + [e];
        forall i, j | 0 <= i < j < |r|
          ensures !StrLess(EntryKey(r[j]), EntryKey(r[i]))
        {
          if j == |r0| {
            assert r0[i] in r0;
            var m :| 0 <= m < |init| && entries[init[m]] == r0[i] && category in r0[i].categories;
            assert r0[i].slug == keys[m];
            assert !StrLess(Lowered(keys[n]), Lowered(keys[m]));
          }
        }
      }
    }
  }

  /** `get_subreddits_in_category` returns the entries in catalog order: by lower-cased name. */
  lemma SubredditsInCategorySorted(category: string)
    ensures forall k :: k in CatalogContents().order <==> k in CatalogContents().entries
    ensures SortedBy(SubredditsInCategory(CatalogContents(), category), EntryKey)
  {
    CatalogWellFormedAndSorted();
    WellFormedOrderCovers(CatalogContents());
    InCategorySorted(CatalogContents().entries, CatalogContents().order, category);
  }
}
