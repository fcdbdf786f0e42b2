/**
 * The column handling of `load_master` and `load_orders` (the loader
 * module and its copy in `OrderService.load_orders`), on a table that has
 * already been read from its file.
 */
module Loader {
  import opened Wrappers
  import opened Names
  import opened Columns
  import Seqs

  /**
   * A table cell: `None` is Python's `None`; every other value is given by
   * its `str()` text, so a pandas NaN is `Some("nan")`.
   */
  type Cell = Option<string>

  /** The names a list of column labels gets from `DataFrame.rename(columns=mapping)`. */
  function Renamed(names: seq<string>, mapping: map<string, string>): (r: seq<string>)
    ensures |r| == |names|
    ensures forall j :: 0 <= j < |names| ==> r[j] == if names[j] in mapping then mapping[names[j]] else names[j]
  {
    seq(|names|, j requires 0 <= j < |names| => if names[j] in mapping then mapping[names[j]] else names[j])
  }

  /** The position of the first column with the given name, if there is one. */
  function FirstIndex(names: seq<string>, name: string): (r: Option<nat>)
    ensures r.None? <==> name !in names
    ensures r.Some? ==> r.value < |names| && names[r.value] == name && forall j :: 0 <= j < r.value ==> names[j] != name
  {
    if names == [] then None
    else if names[0] == name then Some(0)
    else match FirstIndex(names[1..], name)
      case None => None
      case Some(j) => Some(j + 1)
  }

  /** Appending a column leaves the first position of every other name where it was. */
  lemma {:induction false} FirstIndexAppend(names: seq<string>, name: string, other: string)
    requires other != name
    ensures FirstIndex(names + [name], other) == FirstIndex(names, other)
  {
    if names != [] {
      assert (names + [name])[1..] == names[1..] + [name];
      FirstIndexAppend(names[1..], name, other);
    } else {
      assert [name][1..] == [];
    }
  }

  /** `series.apply(norm_name)`: the name key of every cell. */
  function NameKeys(column: seq<Cell>): (r: seq<Cell>)
    ensures |r| == |column|
    ensures forall i :: 0 <= i < |column| ==> r[i] == Some(NormName(column[i]))
  {
    seq(|column|, i requires 0 <= i < |column| => Some(NormName(column[i])))
  }

  /** The columns after every column labelled `name` has been replaced by `values`. */
  function Replaced(names: seq<string>, columns: seq<seq<Cell>>, name: string, values: seq<Cell>): (r: seq<seq<Cell>>)
    requires |columns| == |names|
    ensures |r| == |columns|
    ensures forall j :: 0 <= j < |columns| ==> r[j] == if names[j] == name then values else columns[j]
  {
    seq(|columns|, j requires 0 <= j < |columns| => if names[j] == name then values else columns[j])
  }

  /** The label `df[name] = ...` appends: `name` when no column has it yet, nothing otherwise. */
  function IfAbsent(names: seq<string>, name: string): (r: seq<string>)
    ensures r == [] <==> name in names
    ensures r != [] ==> r == [name]
  {
    if name in names then [] else [name]
  }

  /** A pandas table: column labels (possibly repeated), the columns' cells, and the number of rows. */
  class Frame {
    var names: seq<string>
    var columns: seq<seq<Cell>>
    var height: nat

    ghost predicate Valid()
      reads this
    {
      |columns| == |names| && forall j :: 0 <= j < |columns| ==> |columns[j]| == height
    }

    constructor (names: seq<string>, columns: seq<seq<Cell>>, height: nat)
      requires |columns| == |names| && forall j :: 0 <= j < |columns| ==> |columns[j]| == height
      ensures Valid()
      ensures this.names == names && this.columns == columns && this.height == height
    {
      this.names := names;
      this.columns := columns;
      this.height := height;
    }

    /** `df[name]` for a name that labels one column: the first column with that name. */
    function Column(name: string): (r: Option<seq<Cell>>)
      reads this
      requires Valid()
      ensures r.None? <==> name !in names
      ensures r.Some? ==> |r.value| == height
    {
      match FirstIndex(names, name)
      case None => None
      case Some(j) => Some(columns[j])
    }

    /** `df = df.rename(columns=mapping)`: relabel the columns, keep the data. */
    method Rename(mapping: map<string, string>)
      requires Valid()
      modifies this
      ensures Valid()
      ensures names == Renamed(old(names), mapping)
      ensures columns == old(columns) && height == old(height)
    {
      names := Renamed(names, mapping);
    }

    /**
     * `df[name] = values`: replace every column with that name, or append a
     * new column when there is none.
     */
    method Assign(name: string, values: seq<Cell>)
      requires Valid() && |values| == height
      modifies this
      ensures Valid() && height == old(height)
      ensures name in old(names) ==> names == old(names) && columns == Replaced(old(names), old(columns), name, values)
      ensures name !in old(names) ==> names == old(names) + [name] && columns == old(columns) + [values]
      ensures names == old(names) + IfAbsent(old(names), name)
      ensures Column(name) == Some(values)
      ensures forall other :: other != name ==> Column(other) == old(Column(other))
    {
      if name in names {
        columns := Replaced(names, columns, name, values);
      } else {
        forall other | other != name ensures FirstIndex(names + [name], other) == FirstIndex(names, other) {
          FirstIndexAppend(names, name, other);
        }
        names := names + [name];
        columns := columns + [values];
      }
    }
  }

  // ---------------------------------------------------------------------
  // load_master
  // ---------------------------------------------------------------------

  /** A required master column: its caption in the error message, its candidate keys and its new name. */
  datatype Role = Role(caption: string, candidates: seq<string>, target: string)

  /** The seven required columns, in the order the error message lists them. */
  const MasterRoles: seq<Role> := [
    Role("Customer Name", ["customer name", "customer_name", "name"], "customer_name"),
    Role("Street Address", ["street address", "address", "street"], "address"),
    Role("City", ["city"], "city"),
    Role("State", ["state"], "state"),
    Role("ZIP", ["zip", "zipcode", "postal code", "postal"], "zip"),
    Role("Latitude", ["latitude", "lat"], "lat"),
    Role("Longitude", ["longitude", "lon", "lng"], "lon")
  ]

  const MasterMissingPrefix: string := "Master missing required columns (case-insensitive): "

  /** The `_find` result of every role. */
  function Resolve(names: seq<string>, roles: seq<Role>): (found: seq<Option<string>>)
    ensures |found| == |roles|
    ensures forall i :: 0 <= i < |roles| ==> found[i] == Find(names, roles[i].candidates)
  {
    seq(|roles|, i requires 0 <= i < |roles| => Find(names, roles[i].candidates))
  }

  /** The positions of the unresolved roles, in role order. */
  function MissingIndices(found: seq<Option<string>>): (r: seq<nat>)
    ensures forall t :: 0 <= t < |r| ==> r[t] < |found|
    ensures forall a, b :: 0 <= a < b < |r| ==> r[a] < r[b]
    ensures forall i :: 0 <= i < |found| ==> (i in r <==> found[i].None?)
  {
    if found == [] then []
    else
      var init := found[..|found| - 1];
      assert forall i :: 0 <= i < |init| ==> init[i] == found[i];
      MissingIndices(init) + (if found[|found| - 1].None? then [|found| - 1] else [])
  }

  /** `[lab for lab, c in [...] if c is None]` */
  function MissingLabels(roles: seq<Role>, found: seq<Option<string>>): (r: seq<string>)
    requires |found| == |roles|
  {
    var idx := MissingIndices(found);
    seq(|idx|, t requires 0 <= t < |idx| => roles[idx[t]].caption)
  }

  /**
   * The missing list names exactly the roles that resolved to no column,
   * each once, in the fixed role order; it is empty exactly when every
   * role resolved.
   */
  lemma MissingLabelsSpec(roles: seq<Role>, found: seq<Option<string>>)
    requires |found| == |roles|
    ensures var r := MissingLabels(roles, found); var idx := MissingIndices(found);
      && |r| == |idx|
      && (forall t :: 0 <= t < |r| ==> r[t] == roles[idx[t]].caption && found[idx[t]].None?)
      && (forall a, b :: 0 <= a < b < |idx| ==> idx[a] < idx[b])
      && (forall i :: 0 <= i < |roles| && found[i].None? ==> exists t :: 0 <= t < |idx| && idx[t] == i)
    ensures MissingLabels(roles, found) == [] <==> forall i :: 0 <= i < |found| ==> found[i].Some?
  {
    var idx := MissingIndices(found);
    if MissingLabels(roles, found) == [] {
      forall i | 0 <= i < |found| ensures found[i].Some? {
        assert i !in idx;
      }
    } else {
      assert idx[0] in idx;
    }
  }

  /** Python's `repr` of a list of strings that hold no quote or backslash: `['a', 'b']`. */
  function ReprList(items: seq<string>): (r: string)
    ensures |r| >= 2 && r[0] == '[' && r[|r| - 1] == ']'
    ensures items == [] ==> r == "[]"
  {
    "[" + ReprItems(items) + "]"
  }

  function ReprItems(items: seq<string>): string
  {
    if items == [] then ""
    else if |items| == 1 then "'" + items[0] + "'"
    else "'" + items[0] + "', " + ReprItems(items[1..])
  }

  /** `{name_c: "customer_name", addr_c: "address", ...}`: a later entry overrides an earlier one. */
  function RenameMap(roles: seq<Role>, found: seq<Option<string>>): map<string, string>
    requires |found| == |roles| && forall i :: 0 <= i < |found| ==> found[i].Some?
  {
    if roles == [] then map[]
    else
      var n := |roles| - 1;
      RenameMap(roles[..n], found[..n])[found[n].value := roles[n].target]
  }

  /** A resolved column is renamed to its role's target unless a later role resolved to the same column. */
  lemma {:induction false} RenameMapTargets(roles: seq<Role>, found: seq<Option<string>>, i: nat)
    requires |found| == |roles| && forall j :: 0 <= j < |found| ==> found[j].Some?
    requires i < |roles|
    requires forall j :: i < j < |roles| ==> found[j].value != found[i].value
    ensures found[i].value in RenameMap(roles, found)
    ensures RenameMap(roles, found)[found[i].value] == roles[i].target
  {
    var n := |roles| - 1;
    if i < n {
      RenameMapTargets(roles[..n], found[..n], i);
    }
  }

  /** No candidate key belongs to two roles. */
  predicate CandidatesDisjoint(roles: seq<Role>)
  {
    forall i, j, x :: 0 <= i < j < |roles| && x in roles[i].candidates ==> x !in roles[j].candidates
  }

  lemma MasterCandidatesDisjoint()
    ensures CandidatesDisjoint(MasterRoles)
  {
    MasterKeysClassified();
    ClassifiedDisjoint(MasterRoles, MasterRoleOf);
  }

  /** Roles whose candidate keys can be told apart by a classifying function share no key. */
  lemma ClassifiedDisjoint(roles: seq<Role>, role: string -> nat)
    requires forall i, x :: 0 <= i < |roles| && x in roles[i].candidates ==> role(x) == i
    ensures CandidatesDisjoint(roles)
  {
    forall i, j, x | 0 <= i < j < |roles| && x in roles[i].candidates
      ensures x !in roles[j].candidates
    {
      assert role(x) == i;
    }
  }

  /**
   * The role a candidate key of `MasterRoles` belongs to, told apart by its
   * length and its first and last characters.
   */
  ghost function MasterRoleOf(x: string): nat
  {
    if |x| == 13 then 0
    else if |x| == 14 then 1
    else if |x| == 5 then 3
    else if |x| == 11 then 4
    else if |x| == 8 then 5
    else if |x| == 9 then 6
    else if |x| == 4 then (if x[0] == 'n' then 0 else 2)
    else if |x| == 7 then (if x[0] == 'a' then 1 else 4)
    else if |x| == 6 then (if x[0] == 's' then 1 else 4)
    else if |x| == 3 then (if x[0] == 'z' then 4 else if x[2] == 't' then 5 else 6)
    else 7
  }

  /** Every candidate key of a role is classified under that role. */
  lemma MasterKeysClassified()
    ensures forall i, x :: 0 <= i < |MasterRoles| && x in MasterRoles[i].candidates ==> MasterRoleOf(x) == i
  {
  }

  /**
   * When every role resolves, the roles resolve to different columns, and
   * renaming gives every target name to some column.
   */
  lemma RenameGivesTargets(names: seq<string>, roles: seq<Role>)
    requires CandidatesDisjoint(roles)
    requires forall i :: 0 <= i < |roles| ==> Resolve(names, roles)[i].Some?
    ensures forall i :: 0 <= i < |roles| ==> roles[i].target in Renamed(names, RenameMap(roles, Resolve(names, roles)))
  {
    var found := Resolve(names, roles);
    forall i | 0 <= i < |roles|
      ensures found[i].value in names && KeyOf(found[i].value) in roles[i].candidates
    {
      FindSpec(names, roles[i].candidates);
    }
    forall i | 0 <= i < |roles|
      ensures roles[i].target in Renamed(names, RenameMap(roles, found))
    {
      forall j | i < j < |roles| ensures found[j].value != found[i].value {
        assert KeyOf(found[j].value) in roles[j].candidates;
      }
      RenameMapTargets(roles, found, i);
      var c :| c in names && c == found[i].value;
      var p :| 0 <= p < |names| && names[p] == c;
      assert Renamed(names, RenameMap(roles, found))[p] == roles[i].target;
    }
  }

  /** `df["name_key"] = df["customer_name"].apply(norm_name)` */
  method AddNameKey(df: Frame)
    requires df.Valid() && "customer_name" in df.names
    modifies df
    ensures df.Valid() && df.height == old(df.height)
    ensures forall x :: x in old(df.names) ==> x in df.names
    ensures "name_key" in df.names
    ensures |old(df.names)| <= |df.names|
    ensures forall j :: 0 <= j < |old(df.names)| ==> df.names[j] == old(df.names)[j]
    ensures df.Column("customer_name") == old(df.Column("customer_name"))
    ensures df.Column("order_id") == old(df.Column("order_id")) && df.Column("notes") == old(df.Column("notes"))
    ensures df.Column("name_key") == Some(NameKeys(old(df.Column("customer_name")).value))
    ensures forall other :: other != "name_key" ==> df.Column(other) == old(df.Column(other))
    ensures forall j :: 0 <= j < |old(df.names)| && old(df.names)[j] != "name_key" ==> df.columns[j] == old(df.columns)[j]
    ensures df.names == old(df.names) + IfAbsent(old(df.names), "name_key")
  {
    var customer := df.Column("customer_name");
    df.Assign("name_key", NameKeys(customer.value));
  }

  /**
   * `load_master`, after reading the file: resolve the seven required
   * columns; if any is missing fail with the list of missing labels;
   * otherwise rename them and add the `name_key` column.
   */
  method LoadMaster(df: Frame) returns (r: Result<(), string>)
    requires df.Valid()
    modifies df
    ensures df.Valid() && df.height == old(df.height)
    ensures var found := Resolve(old(df.names), MasterRoles);
      r.Failure? <==> exists i :: 0 <= i < |MasterRoles| && found[i].None?
    ensures r.Failure? ==>
      && r.error == MasterMissingPrefix + ReprList(MissingLabels(MasterRoles, Resolve(old(df.names), MasterRoles)))
      && df.names == old(df.names) && df.columns == old(df.columns)
    ensures r.Success? ==>
      && (forall i :: 0 <= i < |MasterRoles| ==> MasterRoles[i].target in df.names)
      && |old(df.names)| <= |df.names|
      && df.names == Renamed(old(df.names), RenameMap(MasterRoles, Resolve(old(df.names), MasterRoles)))
          + IfAbsent(Renamed(old(df.names), RenameMap(MasterRoles, Resolve(old(df.names), MasterRoles))), "name_key")
      && (forall j :: 0 <= j < |old(df.names)| && df.names[j] != "name_key" ==> df.columns[j] == old(df.columns)[j])
      && "name_key" in df.names
      && df.Column("name_key").Some? && df.Column("customer_name").Some?
      && df.Column("name_key").value == NameKeys(df.Column("customer_name").value)
  {
    MasterCandidatesDisjoint();
    assert MasterRoles[0].target == "customer_name";
    r := LoadRoles(df, MasterRoles);
  }

  /**
   * The body of `load_master` for any list of roles whose candidate keys
   * are disjoint and whose first role yields `customer_name`.
   */
  method LoadRoles(df: Frame, roles: seq<Role>) returns (r: Result<(), string>)
    requires df.Valid()
    requires CandidatesDisjoint(roles) && |roles| > 0 && roles[0].target == "customer_name"
    modifies df
    ensures df.Valid() && df.height == old(df.height)
    ensures var found := Resolve(old(df.names), roles);
      r.Failure? <==> exists i :: 0 <= i < |roles| && found[i].None?
    ensures r.Failure? ==>
      && r.error == MasterMissingPrefix + ReprList(MissingLabels(roles, Resolve(old(df.names), roles)))
      && df.names == old(df.names) && df.columns == old(df.columns)
    ensures r.Success? ==>
      && (forall i :: 0 <= i < |roles| ==> roles[i].target in df.names)
      && |old(df.names)| <= |df.names|
      && df.names == Renamed(old(df.names), RenameMap(roles, Resolve(old(df.names), roles)))
          + IfAbsent(Renamed(old(df.names), RenameMap(roles, Resolve(old(df.names), roles))), "name_key")
      && (forall j :: 0 <= j < |old(df.names)| && df.names[j] != "name_key" ==> df.columns[j] == old(df.columns)[j])
      && "name_key" in df.names
      && df.Column("name_key").Some? && df.Column("customer_name").Some?
      && df.Column("name_key").value == NameKeys(df.Column("customer_name").value)
  {
    var found := Resolve(df.names, roles);
    var missing := MissingLabels(roles, found);
    MissingLabelsSpec(roles, found);
    if missing != [] {
      return Failure(MasterMissingPrefix + ReprList(missing));
    }
    ApplyRoles(df, roles);
    r := Success(());
  }

  /** The success path of `load_master`: rename the resolved columns, then add `name_key`. */
  method ApplyRoles(df: Frame, roles: seq<Role>)
    requires df.Valid()
    requires CandidatesDisjoint(roles) && |roles| > 0 && roles[0].target == "customer_name"
    requires forall i :: 0 <= i < |roles| ==> Resolve(df.names, roles)[i].Some?
    modifies df
    ensures df.Valid() && df.height == old(df.height)
    ensures forall i :: 0 <= i < |roles| ==> roles[i].target in df.names
    ensures |old(df.names)| <= |df.names|
    ensures df.names == Renamed(old(df.names), RenameMap(roles, Resolve(old(df.names), roles)))
      + IfAbsent(Renamed(old(df.names), RenameMap(roles, Resolve(old(df.names), roles))), "name_key")
    ensures forall j :: 0 <= j < |old(df.names)| && df.names[j] != "name_key" ==> df.columns[j] == old(df.columns)[j]
    ensures "name_key" in df.names
    ensures df.Column("name_key").Some? && df.Column("customer_name").Some?
    ensures df.Column("name_key").value == NameKeys(df.Column("customer_name").value)
  {
    RenameRoles(df, roles);
    AddNameKey(df);
  }

  /** `df.rename(columns=rename)` with the dictionary built from the resolved roles. */
  method RenameRoles(df: Frame, roles: seq<Role>)
    requires df.Valid() && CandidatesDisjoint(roles)
    requires forall i :: 0 <= i < |roles| ==> Resolve(df.names, roles)[i].Some?
    modifies df
    ensures df.Valid() && df.height == old(df.height) && df.columns == old(df.columns)
    ensures df.names == Renamed(old(df.names), RenameMap(roles, Resolve(old(df.names), roles)))
    ensures forall i :: 0 <= i < |roles| ==> roles[i].target in df.names
  {
    RenameGivesTargets(df.names, roles);
    df.Rename(RenameMap(roles, Resolve(df.names, roles)));
  }

  // ---------------------------------------------------------------------
  // load_orders
  // ---------------------------------------------------------------------

  /** The accepted keys of the customer-name column, in priority order. */
  const NameCandidates: seq<string> := ["customer name", "customer_name", "name"]

  const OrdersMissingName: string := "Orders must include a 'Customer Name' column (any case)."

  /** A column of empty strings: `df[col] = ""`. */
  function Blank(height: nat): (r: seq<Cell>)
    ensures |r| == height && forall i :: 0 <= i < height ==> r[i] == Some("")
  {
    seq(height, _ => Some(""))
  }

  /** An underscore in a column name survives into its key. */
  lemma UnderscoreKept(x: string)
    requires '_' in x
    ensures '_' in KeyOf(x)
  {
    var l := Lower(x);
    var i :| 0 <= i < |x| && x[i] == '_';
    assert l[i] == '_';
    StripSlice(l);
    assert StripStart(l) <= i < StripEnd(l);
    assert Strip(l)[i - StripStart(l)] == '_';
  }

  /** A space in a key comes from a space in the column name. */
  lemma SpaceFromName(x: string)
    requires ' ' in KeyOf(x)
    ensures ' ' in x
  {
    StripKeepsNothingNew(Lower(x), ' ');
    var i :| 0 <= i < |Lower(x)| && Lower(x)[i] == ' ';
    assert x[i] == ' ';
  }

  /** Stripping only removes characters. */
  lemma StripKeepsNothingNew(l: string, c: char)
    requires c in Strip(l)
    ensures c in l
  {
    StripSlice(l);
    var t :| 0 <= t < |Strip(l)| && Strip(l)[t] == c;
    assert l[StripStart(l) + t] == c;
  }

  /** The column found under the key "order id" is neither `customer_name` nor `notes`. */
  lemma OrderIdColumnDistinct(x: string)
    requires KeyOf(x) == "order id"
    ensures x != "customer_name" && x != "notes"
  {
    assert KeyOf(x)[5] == ' ';
    SpaceFromName(x);
  }

  /** The column found under the key "notes" is neither `customer_name` nor `order_id`. */
  lemma NotesColumnDistinct(x: string)
    requires KeyOf(x) == "notes"
    ensures x != "customer_name" && x != "order_id"
  {
    if '_' in x {
      UnderscoreKept(x);
    }
  }

  /** The dictionary entry for a key is a column with that key. */
  lemma LowMapEntry(names: seq<string>, k: string)
    requires k in LowMap(names)
    ensures LowMap(names)[k] in names && KeyOf(LowMap(names)[k]) == k
  {
    IndexByLastWins(names, KeyOf);
  }

  /**
   * `cols.get("customer name") or cols.get("customer_name") or cols.get("name")`
   * is the `_find` lookup of the three name candidates in that priority.
   */
  lemma NameColumnByPriority(low: map<string, string>)
    ensures FindIn(low, NameCandidates) ==
      if "customer name" in low then Some(low["customer name"])
      else if "customer_name" in low then Some(low["customer_name"])
      else if "name" in low then Some(low["name"])
      else None
  {
    FindInThree(low, "customer name", "customer_name", "name");
  }

  lemma FindInThree(low: map<string, string>, a: string, b: string, c: string)
    ensures FindIn(low, [a, b, c]) ==
      if a in low then Some(low[a]) else if b in low then Some(low[b]) else if c in low then Some(low[c]) else None
  {
    var s := [a, b, c];
    assert s[1..] == [b, c] && s[1..][1..] == [c] && s[1..][1..][1..] == [];
    assert FindIn(low, [c]) == if c in low then Some(low[c]) else FindIn(low, []);
    assert FindIn(low, [b, c]) == if b in low then Some(low[b]) else FindIn(low, [c]);
  }

  /** Some column has one of the customer-name keys. */
  predicate HasNameColumn(low: map<string, string>)
  {
    "customer name" in low || "customer_name" in low || "name" in low
  }

  /** `cols.get("customer name") or cols.get("customer_name") or cols.get("name")`. */
  function NameColumn(low: map<string, string>): (c: string)
    requires HasNameColumn(low)
  {
    if "customer name" in low then low["customer name"]
    else if "customer_name" in low then low["customer_name"]
    else low["name"]
  }

  /** The chosen name column is what `_find` returns for the three candidates, and `_find` finds one exactly when there is one. */
  lemma NameColumnIsFind(low: map<string, string>)
    ensures HasNameColumn(low) <==> FindIn(low, NameCandidates).Some?
    ensures HasNameColumn(low) ==> Some(NameColumn(low)) == FindIn(low, NameCandidates)
  {
    NameColumnByPriority(low);
  }

  /** The renaming `load_orders` applies when `key` is present: its column gets the label `to`. */
  function RenameIfPresent(low: map<string, string>, key: string, to: string): map<string, string>
  {
    if key in low then map[low[key] := to] else map[]
  }

  /**
   * The column labels after the renaming steps of `load_orders`: the
   * customer-name column chosen by priority, then the order-id and notes
   * columns when present.
   */
  function OrderNames(names: seq<string>, low: map<string, string>): (r: seq<string>)
    requires HasNameColumn(low)
    ensures |r| == |names|
  {
    var named := Renamed(names, map[NameColumn(low) := "customer_name"]);
    var ordered := Renamed(named, RenameIfPresent(low, "order id", "order_id"));
    Renamed(ordered, RenameIfPresent(low, "notes", "notes"))
  }

  /** The later renamings never touch the label `customer_name`. */
  lemma LaterRenamesSpareName(names: seq<string>)
    requires HasNameColumn(LowMap(names))
    ensures "customer_name" !in RenameIfPresent(LowMap(names), "order id", "order_id")
    ensures "customer_name" !in RenameIfPresent(LowMap(names), "notes", "notes")
  {
    OrderIdEntryIsNotName(names);
    NotesEntryIsNotName(names);
    RenameIfPresentSpares(LowMap(names), "order id", "order_id", "customer_name");
    RenameIfPresentSpares(LowMap(names), "notes", "notes", "customer_name");
  }

  /** A conditional renaming touches no label other than the entry under its key. */
  lemma RenameIfPresentSpares(low: map<string, string>, key: string, to: string, x: string)
    requires key in low ==> low[key] != x
    ensures x !in RenameIfPresent(low, key, to)
  {
  }

  /** The column under the key "order id" is not `customer_name`. */
  lemma OrderIdEntryIsNotName(names: seq<string>)
    ensures "order id" in LowMap(names) ==> LowMap(names)["order id"] != "customer_name"
  {
    if "order id" in LowMap(names) {
      LowMapEntry(names, "order id");
      OrderIdColumnDistinct(LowMap(names)["order id"]);
    }
  }

  /** The column under the key "notes" is not `customer_name`. */
  lemma NotesEntryIsNotName(names: seq<string>)
    ensures "notes" in LowMap(names) ==> LowMap(names)["notes"] != "customer_name"
  {
    if "notes" in LowMap(names) {
      LowMapEntry(names, "notes");
      NotesColumnDistinct(LowMap(names)["notes"]);
    }
  }

  /** Every column that carried the chosen customer-name label is `customer_name` afterwards. */
  lemma OrderNamesRenamesName(names: seq<string>)
    requires HasNameColumn(LowMap(names))
    ensures forall j :: 0 <= j < |names| && names[j] == NameColumn(LowMap(names)) ==>
      OrderNames(names, LowMap(names))[j] == "customer_name"
    ensures "customer_name" in OrderNames(names, LowMap(names))
  {
    var low := LowMap(names);
    var m2 := RenameIfPresent(low, "order id", "order_id");
    var m3 := RenameIfPresent(low, "notes", "notes");
    var named := Renamed(names, map[NameColumn(low) := "customer_name"]);
    var ordered := Renamed(named, m2);
    var r := Renamed(ordered, m3);
    assert r == OrderNames(names, low);
    LaterRenamesSpareName(names);
    forall j | 0 <= j < |names| && names[j] == NameColumn(low) ensures r[j] == "customer_name" {
      assert named[j] == "customer_name";
      assert ordered[j] == "customer_name";
    }
    var nameKey := if "customer name" in low then "customer name" else if "customer_name" in low then "customer_name" else "name";
    LowMapEntry(names, nameKey);
    var j :| 0 <= j < |names| && names[j] == NameColumn(low);
    assert r[j] == "customer_name";
  }

  /**
   * A renaming that gives no column the label `x` leaves `x` absent when it
   * was absent.
   */
  lemma RenameKeepsAbsent(names: seq<string>, mapping: map<string, string>, x: string)
    requires x !in names && forall k :: k in mapping ==> mapping[k] != x
    ensures x !in Renamed(names, mapping)
  {
    forall j | 0 <= j < |names| ensures Renamed(names, mapping)[j] != x {
    }
  }

  /**
   * After the renaming steps `order_id` (`notes`) is only present when it
   * already was or some column has the key "order id" ("notes").
   */
  lemma OrderNamesAddNoDefaults(names: seq<string>)
    requires HasNameColumn(LowMap(names))
    ensures "order_id" !in names && "order id" !in LowMap(names) ==> "order_id" !in OrderNames(names, LowMap(names))
    ensures "notes" !in names && "notes" !in LowMap(names) ==> "notes" !in OrderNames(names, LowMap(names))
  {
    var low := LowMap(names);
    var m1 := map[NameColumn(low) := "customer_name"];
    var m2 := RenameIfPresent(low, "order id", "order_id");
    var m3 := RenameIfPresent(low, "notes", "notes");
    if "order_id" !in names && "order id" !in low {
      assert m2 == map[];
      RenameKeepsAbsent(names, m1, "order_id");
      RenameKeepsAbsent(Renamed(names, m1), m2, "order_id");
      RenameKeepsAbsent(Renamed(Renamed(names, m1), m2), m3, "order_id");
    }
    if "notes" !in names && "notes" !in low {
      assert m3 == map[];
      RenameKeepsAbsent(names, m1, "notes");
      RenameKeepsAbsent(Renamed(names, m1), m2, "notes");
      RenameKeepsAbsent(Renamed(Renamed(names, m1), m2), m3, "notes");
    }
  }

  /** The renaming steps of `load_orders`, in place. */
  method RenameOrderColumns(df: Frame, low: map<string, string>)
    requires df.Valid() && HasNameColumn(low)
    modifies df
    ensures df.Valid() && df.height == old(df.height) && df.columns == old(df.columns)
    ensures df.names == OrderNames(old(df.names), low)
  {
    df.Rename(map[NameColumn(low) := "customer_name"]);
    ghost var named := df.names;
    if "order id" in low {
      df.Rename(map[low["order id"] := "order_id"]);
    } else {
      assert Renamed(named, map[]) == named;
    }
    ghost var ordered := df.names;
    if "notes" in low {
      df.Rename(map[low["notes"] := "notes"]);
    } else {
      assert Renamed(ordered, map[]) == ordered;
    }
  }

  /** `if "order_id" not in df.columns: df["order_id"] = ""`, and the same for `notes`. */
  method AddDefaultColumns(df: Frame)
    requires df.Valid()
    modifies df
    ensures df.Valid() && df.height == old(df.height)
    ensures forall x :: x in old(df.names) ==> x in df.names
    ensures "order_id" in df.names && "notes" in df.names
    ensures |old(df.names)| <= |df.names|
    ensures forall j :: 0 <= j < |old(df.names)| ==> df.names[j] == old(df.names)[j]
    ensures forall j :: 0 <= j < |old(df.names)| ==> df.columns[j] == old(df.columns)[j]
    ensures df.Column("customer_name") == old(df.Column("customer_name"))
    ensures "order_id" !in old(df.names) ==> df.Column("order_id") == Some(Blank(df.height))
    ensures "notes" !in old(df.names) ==> df.Column("notes") == Some(Blank(df.height))
    ensures df.names == old(df.names) + IfAbsent(old(df.names), "order_id") + IfAbsent(old(df.names), "notes")
  {
    if "order_id" !in df.names {
      df.Assign("order_id", Blank(df.height));
    }
    if "notes" !in df.names {
      df.Assign("notes", Blank(df.height));
    }
  }

  /**
   * `load_orders`, after reading the file: fail without a customer-name
   * column; otherwise rename the columns, add the missing defaults and the
   * `name_key` column.
   */
  method LoadOrders(df: Frame) returns (r: Result<(), string>)
    requires df.Valid()
    modifies df
    ensures df.Valid() && df.height == old(df.height)
    ensures r.Failure? <==> !HasNameColumn(LowMap(old(df.names)))
    ensures r.Failure? ==> r.error == OrdersMissingName && df.names == old(df.names) && df.columns == old(df.columns)
    ensures r.Success? ==>
      && "customer_name" in df.names && "order_id" in df.names && "notes" in df.names && "name_key" in df.names
      && df.Column("name_key") == Some(NameKeys(df.Column("customer_name").value))
    ensures r.Success? ==> HasNameColumn(LowMap(old(df.names))) && |old(df.names)| <= |df.names|
    ensures r.Success? ==> var renamed := OrderNames(old(df.names), LowMap(old(df.names)));
      df.names == renamed + IfAbsent(renamed, "order_id") + IfAbsent(renamed, "notes") + IfAbsent(renamed, "name_key")
    ensures r.Success? ==> forall j :: 0 <= j < |old(df.names)| && df.names[j] != "name_key" ==> df.columns[j] == old(df.columns)[j]
    ensures r.Success? ==> forall j :: 0 <= j < |old(df.names)| && old(df.names)[j] == NameColumn(LowMap(old(df.names))) ==>
      df.names[j] == "customer_name" && df.columns[j] == old(df.columns)[j]
    ensures r.Success? && "order_id" !in old(df.names) && "order id" !in LowMap(old(df.names)) ==>
      df.Column("order_id") == Some(Blank(df.height))
    ensures r.Success? && "notes" !in old(df.names) && "notes" !in LowMap(old(df.names)) ==>
      df.Column("notes") == Some(Blank(df.height))
  {
    if !HasNameColumn(LowMap(df.names)) {
      return Failure(OrdersMissingName);
    }
    PrepareOrders(df);
    r := Success(());
  }

  /**
   * What `load_orders` appends after the renamed labels: at most the three
   * columns `order_id`, `notes` and `name_key`, each at most once and none
   * that was already there.
   */
  lemma OrderLabelsAppended(renamed: seq<string>)
    ensures var added := IfAbsent(renamed, "order_id") + IfAbsent(renamed, "notes") + IfAbsent(renamed, "name_key");
      && |added| <= 3
      && Seqs.NoDup(added)
      && forall x :: x in added ==> (x == "order_id" || x == "notes" || x == "name_key") && x !in renamed
  {
    AppendedAbsent(renamed, "order_id", "notes", "name_key");
  }

  /** Appending three distinct names, each only when absent, adds at most those three, once each. */
  lemma AppendedAbsent(names: seq<string>, a: string, b: string, c: string)
    requires a != b && b != c && a != c
    ensures var added := IfAbsent(names, a) + IfAbsent(names, b) + IfAbsent(names, c);
      && |added| <= 3
      && Seqs.NoDup(added)
      && forall x :: x in added ==> (x == a || x == b || x == c) && x !in names
  {
    var added := IfAbsent(names, a) + IfAbsent(names, b) + IfAbsent(names, c);
    if a in names {
      if b in names {
        if c in names { assert added == []; } else { assert added == [c]; }
      } else {
        if c in names { assert added == [b]; } else { assert added == [b, c]; }
      }
    } else {
      if b in names {
        if c in names { assert added == [a]; } else { assert added == [a, c]; }
      } else {
        if c in names { assert added == [a, b]; } else { assert added == [a, b, c]; }
      }
    }
  }

  /** The success path of `load_orders`: rename, add the defaults, add `name_key`. */
  method PrepareOrders(df: Frame)
    requires df.Valid() && HasNameColumn(LowMap(df.names))
    modifies df
    ensures df.Valid() && df.height == old(df.height)
    ensures "customer_name" in df.names && "order_id" in df.names && "notes" in df.names && "name_key" in df.names
    ensures df.Column("name_key") == Some(NameKeys(df.Column("customer_name").value))
    ensures |old(df.names)| <= |df.names|
    ensures var renamed := OrderNames(old(df.names), LowMap(old(df.names)));
      df.names == renamed + IfAbsent(renamed, "order_id") + IfAbsent(renamed, "notes") + IfAbsent(renamed, "name_key")
    ensures forall j :: 0 <= j < |old(df.names)| && df.names[j] != "name_key" ==> df.columns[j] == old(df.columns)[j]
    ensures forall j :: 0 <= j < |old(df.names)| && old(df.names)[j] == NameColumn(LowMap(old(df.names))) ==>
      df.names[j] == "customer_name" && df.columns[j] == old(df.columns)[j]
    ensures "order_id" !in old(df.names) && "order id" !in LowMap(old(df.names)) ==>
      df.Column("order_id") == Some(Blank(df.height))
    ensures "notes" !in old(df.names) && "notes" !in LowMap(old(df.names)) ==>
      df.Column("notes") == Some(Blank(df.height))
  {
    ghost var names0, columns0 := df.names, df.columns;
    RenameForOrders(df);
    CompleteOrders(df);
    forall j | 0 <= j < |names0| && names0[j] == NameColumn(LowMap(names0))
      ensures df.names[j] == "customer_name" && df.columns[j] == columns0[j]
    {
    }
  }

  /**
   * The three renames of `load_orders` on a table that has a customer-name
   * column: the chosen column becomes `customer_name`, and `order_id` or
   * `notes` appears only from a column keyed "order id" or "notes".
   */
  method RenameForOrders(df: Frame)
    requires df.Valid() && HasNameColumn(LowMap(df.names))
    modifies df
    ensures df.Valid() && df.height == old(df.height) && df.columns == old(df.columns)
    ensures df.names == OrderNames(old(df.names), LowMap(old(df.names))) && |df.names| == |old(df.names)|
    ensures "customer_name" in df.names
    ensures forall j :: 0 <= j < |old(df.names)| && old(df.names)[j] == NameColumn(LowMap(old(df.names))) ==>
      df.names[j] == "customer_name"
    ensures "order_id" !in old(df.names) && "order id" !in LowMap(old(df.names)) ==> "order_id" !in df.names
    ensures "notes" !in old(df.names) && "notes" !in LowMap(old(df.names)) ==> "notes" !in df.names
  {
    OrderNamesRenamesName(df.names);
    OrderNamesAddNoDefaults(df.names);
    RenameOrderColumns(df, LowMap(df.names));
  }

  /** The defaults for `order_id` and `notes`, then the `name_key` column. */
  method CompleteOrders(df: Frame)
    requires df.Valid() && "customer_name" in df.names
    modifies df
    ensures df.Valid() && df.height == old(df.height)
    ensures "customer_name" in df.names && "order_id" in df.names && "notes" in df.names && "name_key" in df.names
    ensures df.Column("name_key") == Some(NameKeys(df.Column("customer_name").value))
    ensures |old(df.names)| <= |df.names|
    ensures df.names == old(df.names) + IfAbsent(old(df.names), "order_id") + IfAbsent(old(df.names), "notes")
      + IfAbsent(old(df.names), "name_key")
    ensures forall j :: 0 <= j < |old(df.names)| ==> df.names[j] == old(df.names)[j]
    ensures forall j :: 0 <= j < |old(df.names)| && df.names[j] != "name_key" ==> df.columns[j] == old(df.columns)[j]
    ensures "order_id" !in old(df.names) ==> df.Column("order_id") == Some(Blank(df.height))
    ensures "notes" !in old(df.names) ==> df.Column("notes") == Some(Blank(df.height))
  {
    AddDefaultColumns(df);
    AddNameKey(df);
  }
}
