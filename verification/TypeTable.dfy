/** The assembler's type table: equal signatures share an entry, and an entry has one name. */
module TypeTable {
  import opened Bytes
  import opened Sections
  import A = Assembler
  import Em = Emitter

  /** types_sig and type_names. */
  datatype Types = Types(sigs: seq<FuncType>, names: seq<Option<string>>)

  const EMPTY: Types := Types([], [])

  function Find(sigs: seq<FuncType>, sig: FuncType): (r: Option<nat>)
    ensures r.Some? ==> r.value < |sigs| && sigs[r.value] == sig && forall i :: 0 <= i < r.value ==> sigs[i] != sig
    ensures r.None? ==> sig !in sigs
  {
    if sigs == [] then None
    else if sigs[0] == sig then Some(0)
    else match Find(sigs[1..], sig) case Some(i) => Some(i + 1) case None => None
  }

  ghost predicate Ok(t: Types)
  {
    |t.sigs| == |t.names| && forall i, j :: 0 <= i < j < |t.sigs| ==> t.sigs[i] != t.sigs[j]
  }

  /** find_or_add_type: the table after it, and the index it returns. */
  function FindOrAdd(t: Types, sig: FuncType): Types
  {
    if Find(t.sigs, sig).Some? then t else Types(t.sigs + [sig], t.names + [None])
  }

  function IndexOf(t: Types, sig: FuncType): nat
  {
    match Find(t.sigs, sig) case Some(i) => i case None => |t.sigs|
  }

  /** What any later addition keeps: the entries there and their positions. */
  lemma FindOrAddKeeps(t: Types, sig: FuncType)
    requires Ok(t)
    ensures var r := FindOrAdd(t, sig);
      && Ok(r) && t.sigs <= r.sigs && t.names <= r.names
      && IndexOf(t, sig) < |r.sigs| && r.sigs[IndexOf(t, sig)] == sig
      && (forall x :: x in r.sigs <==> x in t.sigs || x == sig) && (r.names == t.names || r.names == t.names + [None])
  {
    var r := FindOrAdd(t, sig);
    if Find(t.sigs, sig).None? {
      forall x ensures x in r.sigs <==> x in t.sigs || x == sig {}
    }
  }

  // ----- declared types -----

  /** (type $name (func ...)); the name is optional. */
  datatype Decl = Decl(name: Option<string>, sig: FuncType)

  function Named(t: Types, i: nat, name: Option<string>): Types
  {
    if name.Some? && i < |t.names| then Types(t.sigs, t.names[i := name]) else t
  }

  function Declare(t: Types, d: Decl): Types { Named(FindOrAdd(t, d.sig), IndexOf(t, d.sig), d.name) }

  function DeclareAll(ds: seq<Decl>): Types
    decreases |ds|
  {
    if ds == [] then EMPTY else Declare(DeclareAll(ds[..|ds| - 1]), ds[|ds| - 1])
  }

  /** The last name given to a signature. */
  function LastName(ds: seq<Decl>, sig: FuncType): Option<string>
    decreases |ds|
  {
    if ds == [] then None
    else if ds[|ds| - 1].sig == sig && ds[|ds| - 1].name.Some? then ds[|ds| - 1].name
    else LastName(ds[..|ds| - 1], sig)
  }

  predicate Declares(ds: seq<Decl>, sig: FuncType) { exists k :: 0 <= k < |ds| && ds[k].sig == sig }

  /** The table holds each declared signature once, under the last name it was given. */
  lemma {:induction false} DeclareAllIs(ds: seq<Decl>)
    ensures var t := DeclareAll(ds);
      && Ok(t) && (forall sig :: sig in t.sigs <==> Declares(ds, sig))
      && forall i :: 0 <= i < |t.sigs| ==> t.names[i] == LastName(ds, t.sigs[i])
    decreases |ds|
  {
    if ds != [] {
      var n := |ds| - 1;
      var p := ds[..n];
      DeclareAllIs(p);
      FindOrAddKeeps(DeclareAll(p), ds[n].sig);
      forall sig ensures Declares(ds, sig) <==> Declares(p, sig) || ds[n].sig == sig {
        DeclaresSnoc(ds, sig);
      }
      DeclareStep(p, ds[n], DeclareAll(p));
    } else {
      assert forall sig :: !Declares(ds, sig);
    }
  }

  lemma DeclaresSnoc(ds: seq<Decl>, sig: FuncType)
    requires ds != []
    ensures Declares(ds, sig) <==> Declares(ds[..|ds| - 1], sig) || ds[|ds| - 1].sig == sig
  {
    var p := ds[..|ds| - 1];
    if k :| 0 <= k < |p| && p[k].sig == sig { assert ds[k].sig == sig; }
    if k :| 0 <= k < |ds| && ds[k].sig == sig { assert k < |p| ==> p[k].sig == sig; }
  }

  lemma DeclareStep(p: seq<Decl>, d: Decl, t: Types)
    requires Ok(t) && (forall sig :: sig in t.sigs <==> Declares(p, sig))
    requires forall i :: 0 <= i < |t.sigs| ==> t.names[i] == LastName(p, t.sigs[i])
    ensures var r := Declare(t, d);
      && Ok(r) && r.sigs == FindOrAdd(t, d.sig).sigs
      && forall i :: 0 <= i < |r.sigs| ==> r.names[i] == (if r.sigs[i] == d.sig && d.name.Some? then d.name else LastName(p, r.sigs[i]))
  {
    hide LastName;
    FindOrAddKeeps(t, d.sig);
    NoLastName(p, d.sig);
  }

  lemma {:induction false} NoLastName(ds: seq<Decl>, sig: FuncType)
    ensures !Declares(ds, sig) ==> LastName(ds, sig) == None
    decreases |ds|
  {
    if ds != [] {
      DeclaresSnoc(ds, sig);
      NoLastName(ds[..|ds| - 1], sig);
    }
  }

  /** Names are unique, as the text format demands. */
  predicate NamesUnique(ds: seq<Decl>)
  {
    forall j, k :: 0 <= j < k < |ds| && ds[j].name.Some? ==> ds[j].name != ds[k].name
  }

  /** A later declaration of the same signature takes the entry's name. */
  predicate Renamed(ds: seq<Decl>, k: nat)
    requires k < |ds|
  {
    exists j :: k < j < |ds| && ds[j].sig == ds[k].sig && ds[j].name.Some?
  }

  lemma {:induction false} LastNameIs(ds: seq<Decl>, k: nat)
    requires k < |ds| && ds[k].name.Some? && NamesUnique(ds)
    ensures LastName(ds, ds[k].sig) == ds[k].name <==> !Renamed(ds, k)
    ensures forall sig :: LastName(ds, sig) == ds[k].name ==> sig == ds[k].sig
    decreases |ds|
  {
    var n := |ds| - 1;
    var p := ds[..n];
    if k == n {
      forall sig | LastName(ds, sig) == ds[k].name ensures sig == ds[k].sig {
        if sig != ds[k].sig { LastNameFrom(p, sig); }
      }
    } else {
      LastNameIs(p, k);
      if ds[n].sig == ds[k].sig && ds[n].name.Some? {
        assert Renamed(ds, k);
      } else {
        if j :| k < j < |p| && p[j].sig == p[k].sig && p[j].name.Some? { assert ds[j] == p[j]; }
        if j :| k < j < |ds| && ds[j].sig == ds[k].sig && ds[j].name.Some? { assert ds[j] == p[j]; }
      }
    }
  }

  lemma {:induction false} LastNameFrom(ds: seq<Decl>, sig: FuncType)
    ensures LastName(ds, sig).Some? ==> exists j :: 0 <= j < |ds| && ds[j].name == LastName(ds, sig)
    decreases |ds|
  {
    if ds != [] {
      LastNameFrom(ds[..|ds| - 1], sig);
    }
  }

  /**
   A declared name stands for its signature exactly if no later declaration names the same signature again; otherwise
   it is unknown.
   */
  lemma NameResolvesIff(ds: seq<Decl>, k: nat)
    requires k < |ds| && ds[k].name.Some? && NamesUnique(ds)
    ensures var t := DeclareAll(ds); var r := A.FindName(t.names, ds[k].name.value);
      && (!Renamed(ds, k) ==> r.Some? && r.value < |t.sigs| && t.sigs[r.value] == ds[k].sig)
      && (Renamed(ds, k) ==> r.None?)
  {
    hide LastName;
    var t := DeclareAll(ds);
    DeclareAllIs(ds);
    LastNameIs(ds, k);
    A.FindNameIs(t.names, ds[k].name.value);
    assert Declares(ds, ds[k].sig);
    assert ds[k].sig in t.sigs;
  }

  predicate AllDifferent(ds: seq<Decl>) { forall j, k :: 0 <= j < k < |ds| ==> ds[j].sig != ds[k].sig }

  function Sigs(ds: seq<Decl>): (r: seq<FuncType>)
    ensures |r| == |ds|
  {
    seq(|ds|, i requires 0 <= i < |ds| => ds[i].sig)
  }

  /** Types keep the numbers the text gives them exactly if no signature is declared twice. */
  lemma NumbersKeptIff(ds: seq<Decl>)
    ensures DeclareAll(ds).sigs == Sigs(ds) <==> AllDifferent(ds)
  {
    DeclareAllIs(ds);
    if AllDifferent(ds) {
      NumbersKept(ds);
    } else {
      var j, k :| 0 <= j < k < |ds| && ds[j].sig == ds[k].sig;
      assert Sigs(ds)[j] == Sigs(ds)[k];
    }
  }

  /** Then every declaration's name is its entry's. */
  lemma {:induction false} NamesKept(ds: seq<Decl>)
    requires AllDifferent(ds)
    ensures DeclareAll(ds).names == seq(|ds|, i requires 0 <= i < |ds| => ds[i].name)
    decreases |ds|
  {
    if ds != [] {
      var n := |ds| - 1;
      var p := ds[..n];
      LastDiffers(ds);
      NamesKept(p);
      NumbersKept(p);
      DeclareAllIs(p);
      hide AllDifferent, LastName, Declares;
      assert ds[n].sig !in DeclareAll(p).sigs;
      assert DeclareAll(ds) == Declare(DeclareAll(p), ds[n]);
      assert |DeclareAll(p).names| == n;
    }
  }

  lemma {:induction false} NumbersKept(ds: seq<Decl>)
    requires AllDifferent(ds)
    ensures DeclareAll(ds).sigs == Sigs(ds)
    decreases |ds|
  {
    if ds != [] {
      var n := |ds| - 1;
      var p := ds[..n];
      LastDiffers(ds);
      NumbersKept(p);
      DeclareAllIs(p);
      hide AllDifferent, LastName, Declares;
      assert ds[n].sig !in DeclareAll(p).sigs;
      assert DeclareAll(ds) == Declare(DeclareAll(p), ds[n]);
    }
  }

  lemma LastDiffers(ds: seq<Decl>)
    requires AllDifferent(ds) && ds != []
    ensures var p, d := ds[..|ds| - 1], ds[|ds| - 1]; AllDifferent(p) && !Declares(p, d.sig) && Sigs(ds) == Sigs(p) + [d.sig]
  {
  }

  // ----- the types of functions -----

  /** How a function gives its type: by a (type ...) if it has one, and by its own params and results. */
  datatype Use = Use(name: Option<string>, sig: FuncType)

  function Known(names: seq<Option<string>>, u: Use): Option<nat>
  {
    if u.name.Some? then A.ResolveName(names, u.name.value) else None
  }

  /** Is x the own signature of a function whose use does not resolve? */
  ghost predicate OwnSig(names: seq<Option<string>>, us: seq<Use>, x: FuncType)
  {
    exists k :: 0 <= k < |us| && Known(names, us[k]).None? && us[k].sig == x
  }

  lemma NoOwnSig(names: seq<Option<string>>, us: seq<Use>)
    ensures us == [] ==> forall x :: !OwnSig(names, us, x)
  {
  }

  lemma OwnSigNext(names: seq<Option<string>>, us: seq<Use>, k: nat, x: FuncType)
    requires k < |us|
    ensures OwnSig(names, us[..k + 1], x)
      <==> OwnSig(names, us[..k], x) || (Known(names, us[k]).None? && us[k].sig == x)
  {
    hide Known;
    var p, q := us[..k], us[..k + 1];
    if j :| 0 <= j < |p| && Known(names, p[j]).None? && p[j].sig == x { assert q[j] == p[j]; }
    if j :| 0 <= j < |q| && Known(names, q[j]).None? && q[j].sig == x {
      assert q[j] == us[j];
      if j < k { assert p[j] == us[j]; }
    }
    if Known(names, us[k]).None? && us[k].sig == x { assert q[k] == us[k]; }
  }

  /** Entries added later have no name, so a use resolves as it did before them. */
  lemma {:induction false} KnownStays(names: seq<Option<string>>, name: string)
    ensures A.FindName(names + [None], name) == A.FindName(names, name)
    decreases |names|
  {
    if names != [] {
      assert (names + [None])[1..] == names[1..] + [None];
      KnownStays(names[1..], name);
    } else {
      assert (names + [None])[1..] == [];
    }
  }

  lemma KnownAfter(t: Types, sig: FuncType, u: Use)
    requires Ok(t)
    ensures Known(FindOrAdd(t, sig).names, u) == Known(t.names, u)
  {
    FindOrAddKeeps(t, sig);
    if u.name.Some? && u.name.value != [] && u.name.value[0] == '$' { KnownStays(t.names, u.name.value[1..]); }
  }

  /** A declared name that another declaration of its signature took over: a function that gives its type by that name,
      and nothing else, gets the empty type. */
  lemma LostName(ds: seq<Decl>, k: nat)
    requires k < |ds| && ds[k].name.Some? && NamesUnique(ds) && Renamed(ds, k)
    ensures var t, u := DeclareAll(ds), Use(Some("$" + ds[k].name.value), FuncType([], []));
      var r := FindOrAdd(t, u.sig);
      && Known(t.names, u) == None && IndexOf(t, u.sig) < |r.sigs| && r.sigs[IndexOf(t, u.sig)] == FuncType([], [])
  {
    hide DeclareAll, Renamed, NamesUnique;
    NameResolvesIff(ds, k);
    DeclareAllIs(ds);
    FindOrAddKeeps(DeclareAll(ds), FuncType([], []));
    assert ("$" + ds[k].name.value)[1..] == ds[k].name.value;
  }

  /** register_func_type: the table after it. */
  function Enter(t: Types, u: Use): Types { if Known(t.names, u).Some? then t else FindOrAdd(t, u.sig) }

  function EnterAll(t: Types, us: seq<Use>): Types
    decreases |us|
  {
    if us == [] then t else Enter(EnterAll(t, us[..|us| - 1]), us[|us| - 1])
  }

  /**
   The types a module has where some uses give theirs inline: by section 6.6.3 of the WebAssembly Core Specification
   1.0 such a type is added at the end, unless there is an equal one.
   */
  function Inserted<X(==)>(types: seq<X>, wanted: seq<Option<X>>): seq<X>
    decreases |wanted|
  {
    if wanted == [] then types
    else
      var r := Inserted(types, wanted[..|wanted| - 1]);
      match wanted[|wanted| - 1] case Some(x) => if x in r then r else r + [x] case None => r
  }

  /** What the uses that do not resolve want. */
  function Wanted(names: seq<Option<string>>, us: seq<Use>): (r: seq<Option<FuncType>>)
    ensures |r| == |us|
  {
    seq(|us|, i requires 0 <= i < |us| => if Known(names, us[i]).Some? then None else Some(us[i].sig))
  }

  /** The declared types stay where they are, and every type wanted is there. */
  lemma {:induction false} InsertedHas<X>(types: seq<X>, wanted: seq<Option<X>>)
    ensures types <= Inserted(types, wanted)
    ensures forall i :: 0 <= i < |wanted| && wanted[i].Some? ==> wanted[i].value in Inserted(types, wanted)
    decreases |wanted|
  {
    if wanted != [] {
      var n := |wanted| - 1;
      InsertedHas(types, wanted[..n]);
      forall i | 0 <= i < n && wanted[i].Some? ensures wanted[i].value in Inserted(types, wanted) {
        assert wanted[..n][i] == wanted[i];
      }
    }
  }

  /** Entering uses inserts the types they want, without names, and changes no entry and no name. */
  lemma {:induction false} EnterAllIs(t: Types, us: seq<Use>)
    requires Ok(t)
    ensures var r := EnterAll(t, us);
      && Ok(r) && r.sigs == Inserted(t.sigs, Wanted(t.names, us)) && |t.names| <= |r.names|
      && r.names == t.names + seq(|r.names| - |t.names|, i => None)
      && forall u :: Known(r.names, u) == Known(t.names, u)
    decreases |us|
  {
    hide FindOrAdd, IndexOf, Known;
    if us != [] {
      var n := |us| - 1;
      var r := EnterAll(t, us[..n]);
      EnterAllIs(t, us[..n]);
      assert Wanted(t.names, us)[..n] == Wanted(t.names, us[..n]);
      EnterAdds(r, us[n].sig);
      forall u ensures Known(FindOrAdd(r, us[n].sig).names, u) == Known(r.names, u) { KnownAfter(r, us[n].sig, u); }
    }
  }

  lemma EnterAdds(t: Types, sig: FuncType)
    requires Ok(t)
    ensures var r := FindOrAdd(t, sig);
      && Ok(r) && r.sigs == (if sig in t.sigs then t.sigs else t.sigs + [sig])
      && r.names == (if sig in t.sigs then t.names else t.names + [None])
  {
  }

  // ----- in place -----

  class Table {
    var sigs: seq<FuncType>
    var names: seq<Option<string>>

    ghost function Abs(): Types reads this { Types(sigs, names) }

    constructor ()
      ensures Abs() == EMPTY
    {
      sigs, names := [], [];
    }

    /** sig_eq. */
    static method SameSig(a: FuncType, b: FuncType) returns (r: bool)
      ensures r == (a == b)
    {
      if |a.params| != |b.params| || |a.results| != |b.results| { return false; }
      for i := 0 to |a.params|
        invariant a.params[..i] == b.params[..i]
      {
        if a.params[i] != b.params[i] { return false; }
      }
      for i := 0 to |a.results|
        invariant a.results[..i] == b.results[..i]
      {
        if a.results[i] != b.results[i] { return false; }
      }
      assert a.params[..|a.params|] == a.params && b.params[..|b.params|] == b.params;
      assert a.results[..|a.results|] == a.results && b.results[..|b.results|] == b.results;
      return true;
    }

    method FindOrAddType(sig: FuncType) returns (i: nat)
      modifies this
      ensures Abs() == FindOrAdd(old(Abs()), sig) && i == IndexOf(old(Abs()), sig)
    {
      i := 0;
      while i < |sigs|
        invariant i <= |sigs| && sigs == old(sigs) && names == old(names) && forall k :: 0 <= k < i ==> sigs[k] != sig
      {
        var same := SameSig(sigs[i], sig);
        if same { return; }
        i := i + 1;
      }
      sigs := sigs + [sig];
      names := names + [None];
    }

    method DeclareTypes(ds: seq<Decl>)
      requires Abs() == EMPTY
      modifies this
      ensures Abs() == DeclareAll(ds)
    {
      for k := 0 to |ds|
        invariant Abs() == DeclareAll(ds[..k])
      {
        assert ds[..k + 1][..k] == ds[..k];
        DeclareAllIs(ds[..k]);
        FindOrAddKeeps(Abs(), ds[k].sig);
        var i := FindOrAddType(ds[k].sig);
        if ds[k].name.Some? { names := names[i := ds[k].name]; }
      }
      assert ds[..|ds|] == ds;
    }

    /** register_func_type: a (type ...) that resolves is taken as it is, otherwise the signature is looked up. */
    method Register(u: Use) returns (i: nat)
      modifies this
      ensures var known := Known(old(names), u);
        if known.Some? then Abs() == old(Abs()) && i == known.value
        else Abs() == FindOrAdd(old(Abs()), u.sig) && i == IndexOf(old(Abs()), u.sig)
    {
      if u.name.Some? {
        var known := Em.ResolveName(names, u.name.value);
        if known.Some? { return known.value; }
      }
      i := FindOrAddType(u.sig);
    }

    /** The types of all functions, in order: the type a use names, else an entry that still holds the function's own
        signature at the end. */
    method RegisterAll(us: seq<Use>) returns (ts: seq<nat>)
      requires Ok(Abs())
      modifies this
      ensures Abs() == EnterAll(old(Abs()), us) && Ok(Abs()) && old(sigs) <= sigs && |ts| == |us|
      ensures forall k :: 0 <= k < |ts| ==> match Known(old(names), us[k])
        case Some(t) => ts[k] == t
        case None => ts[k] < |sigs| && sigs[ts[k]] == us[k].sig
      ensures forall x :: x in sigs <==> x in old(sigs) || OwnSig(old(names), us, x)
    {
      hide FindOrAdd, IndexOf, Known, OwnSig;
      ts := [];
      assert us[..|us|] == us;
      NoOwnSig(names, us[..0]);
      for k := 0 to |us|
        invariant Abs() == EnterAll(old(Abs()), us[..k]) && Ok(Abs()) && old(sigs) <= sigs && |ts| == k
        invariant forall u :: Known(names, u) == Known(old(names), u)
        invariant forall j :: 0 <= j < k ==> match Known(old(names), us[j])
          case Some(t) => ts[j] == t
          case None => ts[j] < |sigs| && sigs[ts[j]] == us[j].sig
        invariant forall x :: x in sigs <==> x in old(sigs) || OwnSig(old(names), us[..k], x)
      {
        forall x ensures OwnSig(old(names), us[..k + 1], x)
          <==> OwnSig(old(names), us[..k], x) || (Known(old(names), us[k]).None? && us[k].sig == x)
        {
          OwnSigNext(old(names), us, k, x);
        }
        ghost var before := Abs();
        assert us[..k + 1][..k] == us[..k];
        FindOrAddKeeps(before, us[k].sig);
        forall u ensures Known(FindOrAdd(before, us[k].sig).names, u) == Known(before.names, u) { KnownAfter(before, us[k].sig, u); }
        var i := Register(us[k]);
        ts := ts + [i];
      }
    }
  }
}
