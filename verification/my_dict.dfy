/**
 * Model of examples/my_dict/my_dict.py: `ViaDotDict`, a dictionary whose
 * items are read, changed, added and deleted as attributes, each operation
 * first checking a table of permissions and a list of protected names.
 * Nested dicts are wrapped into objects of the same kind that inherit the
 * permissions and receive the tails of dotted protected paths.
 */
module MyDict {
  import opened Common

  datatype Permission = Read | Change | Add | Delete

  /** A value as the caller supplies it; `Dict` is a plain Python dict. */
  datatype Value = Text(text: string) | Number(number: int) | Dict(items: map<string, Value>)

  /** What the object keeps under a name: the value as given, or a nested
      dict already wrapped into an object of its own. */
  datatype Stored = Plain(value: Value) | Wrapped(node: Node)

  /** The state of one `ViaDotDict`: its access table, the names protected
      at its own level, and its items. */
  datatype Node = Node(accessParams: map<Permission, bool>, protected: seq<string>, dictData: map<string, Stored>)

  /** `ProtectedError` for a missing permission or a protected name, and
      `KeyError` for a missing item. */
  datatype DictError = NoAccess(action: Permission) | Forbidden(name: string) | KeyError(key: string)

  /** The `Protected_fields` pair. */
  datatype ProtectedFields = ProtectedFields(current: seq<string>, next: seq<string>)

  /** The position of the first "." in `field`, if any. */
  function FirstDot(field: string): (r: Option<nat>)
    ensures r.Some? ==> r.value < |field| && field[r.value] == '.' && '.' !in field[..r.value]
    ensures r.None? ==> '.' !in field
  {
    if field == [] then None
    else if field[0] == '.' then Some(0)
    else match FirstDot(field[1..])
      case None => None
      case Some(i) =>
        assert field[..i + 1] == [field[0]] + field[1..][..i];
        Some(i + 1)
  }

  /** `field.split(".", maxsplit=1)`: the head before the first "." and, if
      there was a ".", the remainder after it. */
  function Split(field: string): (r: (string, seq<string>))
    ensures '.' !in r.0 && |r.1| <= 1
    ensures r.1 == [] <==> '.' !in field
    ensures r.1 == [] ==> r.0 == field
    ensures r.1 != [] ==> field == r.0 + "." + r.1[0]
  {
    match FirstDot(field)
    case None => (field, [])
    case Some(i) =>
      assert field == field[..i] + "." + field[i + 1..];
      (field[..i], [field[i + 1..]])
  }

  /** The heads of all protected paths, in order. */
  function Heads(protected: seq<string>): (heads: seq<string>)
    ensures |heads| == |protected|
    ensures forall i :: 0 <= i < |protected| ==> heads[i] == Split(protected[i]).0
  {
    if protected == [] then [] else Heads(protected[..|protected| - 1]) + [Split(protected[|protected| - 1]).0]
  }

  /** The remainders of the dotted protected paths, in order. */
  function Tails(protected: seq<string>): seq<string>
  {
    if protected == [] then [] else Tails(protected[..|protected| - 1]) + Split(protected[|protected| - 1]).1
  }

  /** Every dotted path leaves its remainder for the next level, and nothing
      else is passed down. */
  lemma {:induction false} TailsOfPaths(protected: seq<string>, field: string)
    requires field in protected && '.' in field
    ensures Split(field).1[0] in Tails(protected)
  {
    var last := protected[|protected| - 1];
    if field != last {
      assert field in protected[..|protected| - 1];
      TailsOfPaths(protected[..|protected| - 1], field);
    }
  }

  lemma {:induction false} TailsAreRemainders(protected: seq<string>, rest: string)
    requires rest in Tails(protected)
    ensures exists field :: field in protected && Split(field).1 == [rest]
  {
    var init := protected[..|protected| - 1];
    var last := protected[|protected| - 1];
    if rest in Tails(init) {
      TailsAreRemainders(init, rest);
      var field :| field in init && Split(field).1 == [rest];
      assert field in protected;
    } else {
      assert Split(last).1 == [rest];
    }
  }

  /** A plain value is stored as given; a nested dict becomes an object with
      the same permissions and the next level of protected names. */
  function Wrap(v: Value, accessParams: map<Permission, bool>, protected: seq<string>): (s: Stored)
    decreases v, 2
  {
    if v.Dict? then Wrapped(Build(v.items, accessParams, protected)) else Plain(v)
  }

  /** The object `ViaDotDict(items, accessParams, protected)` builds. */
  function Build(items: map<string, Value>, accessParams: map<Permission, bool>, protected: seq<string>): (n: Node)
    ensures n.accessParams == accessParams && n.protected == Heads(protected)
    ensures n.dictData.Keys == items.Keys
    decreases Dict(items), 1
  {
    Node(accessParams, Heads(protected), Formed(items, accessParams, Tails(protected)))
  }

  /** The map `_set_input_dict_data` fills. */
  function Formed(items: map<string, Value>, accessParams: map<Permission, bool>, protected: seq<string>): (d: map<string, Stored>)
    ensures d.Keys == items.Keys
    decreases Dict(items), 0
  {
    map k | k in items :: Wrap(items[k], accessParams, protected)
  }

  /** A nested object inherits the permissions of its parent, and is
      protected by the remainders of the parent's dotted paths. */
  lemma NestedInherits(items: map<string, Value>, accessParams: map<Permission, bool>, protected: seq<string>, key: string)
    requires key in items && items[key].Dict?
    ensures Build(items, accessParams, protected).dictData[key]
         == Wrapped(Build(items[key].items, accessParams, Tails(protected)))
    ensures Build(items, accessParams, protected).dictData[key].node.accessParams == accessParams
  {
    assert Build(items, accessParams, protected).dictData == Formed(items, accessParams, Tails(protected));
    assert Formed(items, accessParams, Tails(protected))[key] == Wrap(items[key], accessParams, Tails(protected));
  }

  /** A plain item is kept exactly as supplied. */
  lemma PlainKept(items: map<string, Value>, accessParams: map<Permission, bool>, protected: seq<string>, key: string)
    requires key in items && !items[key].Dict?
    ensures Build(items, accessParams, protected).dictData[key] == Plain(items[key])
  {
    assert Build(items, accessParams, protected).dictData == Formed(items, accessParams, Tails(protected));
    assert Formed(items, accessParams, Tails(protected))[key] == Wrap(items[key], accessParams, Tails(protected));
  }

  /** A protected path "a.b" protects "a" itself at the outer level and "b"
      inside the object stored under "a". */
  lemma DottedPathProtects(items: map<string, Value>, accessParams: map<Permission, bool>, protected: seq<string>,
                           field: string, key: string)
    requires field in protected && '.' in field && Split(field).0 == key
    requires key in items && items[key].Dict?
    ensures key in Build(items, accessParams, protected).protected
    ensures Build(items, accessParams, protected).dictData[key].Wrapped?
    ensures Split(Split(field).1[0]).0 in Build(items, accessParams, protected).dictData[key].node.protected
  {
    var i :| 0 <= i < |protected| && protected[i] == field;
    assert Heads(protected)[i] == key;
    NestedInherits(items, accessParams, protected, key);
    var tails := Tails(protected);
    TailsOfPaths(protected, field);
    var j :| 0 <= j < |tails| && tails[j] == Split(field).1[0];
    assert Heads(tails)[j] == Split(Split(field).1[0]).0;
  }

  /** A permission absent from the table counts as denied (`.get` gives
      `None`). */
  predicate Granted(accessParams: map<Permission, bool>, action: Permission)
  {
    action in accessParams && accessParams[action]
  }

  /** `__getattr__`: READ permission, then the protected list, then the
      lookup. */
  function Lookup(n: Node, name: string): (r: Result<Stored, DictError>)
    ensures r.Ok? <==> Granted(n.accessParams, Read) && name !in n.protected && name in n.dictData
    ensures r.Ok? ==> r.value == n.dictData[name]
    ensures !Granted(n.accessParams, Read) ==> r == Err(NoAccess(Read))
    ensures Granted(n.accessParams, Read) && name in n.protected ==> r == Err(Forbidden(name))
    ensures Granted(n.accessParams, Read) && name !in n.protected && name !in n.dictData ==> r == Err(KeyError(name))
  {
    if !Granted(n.accessParams, Read) then Err(NoAccess(Read))
    else if name in n.protected then Err(Forbidden(name))
    else if name !in n.dictData then Err(KeyError(name))
    else Ok(n.dictData[name])
  }

  /** `__setattr__`: changing an existing item needs CHANGE and an
      unprotected name; adding a new one needs ADD only. */
  function Assign(n: Node, name: string, value: Stored): (r: Result<Node, DictError>)
    ensures r.Ok? <==> if name in n.dictData then Granted(n.accessParams, Change) && name !in n.protected
                       else Granted(n.accessParams, Add)
    ensures r.Ok? ==> r.value == n.(dictData := n.dictData[name := value])
    ensures name in n.dictData && !Granted(n.accessParams, Change) ==> r == Err(NoAccess(Change))
    ensures name in n.dictData && Granted(n.accessParams, Change) && name in n.protected ==> r == Err(Forbidden(name))
    ensures name !in n.dictData && !Granted(n.accessParams, Add) ==> r == Err(NoAccess(Add))
  {
    if name in n.dictData && !Granted(n.accessParams, Change) then Err(NoAccess(Change))
    else if name in n.dictData && name in n.protected then Err(Forbidden(name))
    else if name !in n.dictData && !Granted(n.accessParams, Add) then Err(NoAccess(Add))
    else Ok(n.(dictData := n.dictData[name := value]))
  }

  /** `__delattr__`: DELETE permission, then the protected list, then the
      removal, which fails for a missing item. */
  function Remove(n: Node, name: string): (r: Result<Node, DictError>)
    ensures r.Ok? <==> Granted(n.accessParams, Delete) && name !in n.protected && name in n.dictData
    ensures r.Ok? ==> r.value == n.(dictData := n.dictData - {name})
    ensures !Granted(n.accessParams, Delete) ==> r == Err(NoAccess(Delete))
    ensures Granted(n.accessParams, Delete) && name in n.protected ==> r == Err(Forbidden(name))
    ensures Granted(n.accessParams, Delete) && name !in n.protected && name !in n.dictData ==> r == Err(KeyError(name))
  {
    if !Granted(n.accessParams, Delete) then Err(NoAccess(Delete))
    else if name in n.protected then Err(Forbidden(name))
    else if name !in n.dictData then Err(KeyError(name))
    else Ok(n.(dictData := n.dictData - {name}))
  }

  /** A successful set is seen by the next read, if reading is allowed, and
      leaves every other item alone. */
  lemma GetAfterSet(n: Node, name: string, value: Stored, other: string)
    requires Assign(n, name, value).Ok?
    requires Granted(n.accessParams, Read) && name !in n.protected
    ensures Lookup(Assign(n, name, value).value, name) == Ok(value)
    ensures other != name ==> Lookup(Assign(n, name, value).value, other) == Lookup(n, other)
  {
  }

  /** After a successful delete, reading the name raises `KeyError` (or
      `ProtectedError` when reading is not allowed at all). */
  lemma GetAfterDelete(n: Node, name: string)
    requires Remove(n, name).Ok?
    ensures Lookup(Remove(n, name).value, name)
         == if Granted(n.accessParams, Read) then Err(KeyError(name)) else Err(NoAccess(Read))
  {
  }

  /** A name that is not in the map can always be added when ADD is
      granted, even if it is protected; after that it cannot be changed. */
  lemma ProtectedNameCanBeAdded(n: Node, name: string, value: Stored, again: Stored)
    requires name !in n.dictData && name in n.protected && Granted(n.accessParams, Add)
    ensures Assign(n, name, value).Ok?
    ensures Assign(Assign(n, name, value).value, name, again) ==
      if Granted(n.accessParams, Change) then Err(Forbidden(name)) else Err(NoAccess(Change))
  {
  }

  /** The access table `dict_factory` builds from its four flags. */
  function AccessTable(read: bool, change: bool, add: bool, delete: bool): (t: map<Permission, bool>)
    ensures t.Keys == {Read, Change, Add, Delete}
    ensures Granted(t, Read) == read && Granted(t, Change) == change
    ensures Granted(t, Add) == add && Granted(t, Delete) == delete
  {
    map[Read := read, Change := change, Add := add, Delete := delete]
  }

  /** With only READ granted, every change, addition and deletion is
      refused before the map is touched. */
  lemma ReadOnlyRefusesWrites(n: Node, name: string, value: Stored)
    requires n.accessParams == AccessTable(true, false, false, false)
    ensures Assign(n, name, value) == Err(NoAccess(if name in n.dictData then Change else Add))
    ensures Remove(n, name) == Err(NoAccess(Delete))
  {
  }

  /** A `ViaDotDict` object. */
  class ViaDotDict {
    const accessParams: map<Permission, bool>
    const protected: seq<string>
    var dictData: map<string, Stored>

    /** The object's state as a value. */
    function View(): Node
      reads this
    {
      Node(accessParams, protected, dictData)
    }

    /** `__init__`. */
    constructor(dictData: map<string, Value>, accessParams: map<Permission, bool>, protected: seq<string>)
      ensures View() == Build(dictData, accessParams, protected)
    {
      var fields := SplitProtected(protected);
      var formed := SetInputDictData(dictData, accessParams, fields.next);
      this.accessParams := accessParams;
      this.protected := fields.current;
      this.dictData := formed;
    }

    /** `_split_protected`: walks the paths, collecting heads and the
        remainders of dotted ones. */
    static method SplitProtected(protected: seq<string>) returns (fields: ProtectedFields)
      ensures |fields.current| == |protected|
      ensures forall i :: 0 <= i < |protected| ==> fields.current[i] == Split(protected[i]).0
      ensures fields.next == Tails(protected)
    {
      var nextProtected: seq<string> := [];
      var currentProtected: seq<string> := [];
      for i := 0 to |protected|
        invariant currentProtected == Heads(protected[..i])
        invariant nextProtected == Tails(protected[..i])
      {
        var (currentField, innerFields) := Split(protected[i]);
        assert protected[..i + 1][..i] == protected[..i];
        nextProtected := nextProtected + innerFields;
        currentProtected := currentProtected + [currentField];
      }
      assert protected[..|protected|] == protected;
      fields := ProtectedFields(currentProtected, nextProtected);
    }

    /** `_set_input_dict_data`: copies each item, wrapping nested dicts. */
    static method SetInputDictData(data: map<string, Value>, accessParams: map<Permission, bool>, protected: seq<string>)
      returns (dictData: map<string, Stored>)
      ensures dictData == Formed(data, accessParams, protected)
    {
      dictData := map[];
      var remaining := data.Keys;
      while remaining != {}
        invariant remaining <= data.Keys
        invariant dictData.Keys == data.Keys - remaining
        invariant forall k :: k in dictData ==> dictData[k] == Wrap(data[k], accessParams, protected)
        decreases remaining
      {
        var attribute :| attribute in remaining;
        var value := data[attribute];
        if !value.Dict? {
          dictData := dictData[attribute := Plain(value)];
        } else {
          dictData := dictData[attribute := Wrapped(Build(value.items, accessParams, protected))];
        }
        remaining := remaining - {attribute};
      }
    }

    /** `__getattr__`. */
    method GetAttr(name: string) returns (r: Result<Stored, DictError>)
      ensures r == Lookup(View(), name)
    {
      if !(Read in accessParams && accessParams[Read]) {
        return Err(NoAccess(Read));
      }
      if name in protected {
        return Err(Forbidden(name));
      }
      if name !in dictData {
        return Err(KeyError(name));
      }
      return Ok(dictData[name]);
    }

    /** `__setattr__`; on a raised error nothing changes. */
    method SetAttr(name: string, value: Stored) returns (raised: Option<DictError>)
      modifies this
      ensures Assign(old(View()), name, value).Ok? ==> raised == None && View() == Assign(old(View()), name, value).value
      ensures Assign(old(View()), name, value).Err? ==> raised == Some(Assign(old(View()), name, value).error)
      ensures Assign(old(View()), name, value).Err? ==> dictData == old(dictData)
    {
      if name in dictData {
        if !(Change in accessParams && accessParams[Change]) {
          return Some(NoAccess(Change));
        }
        if name in protected {
          return Some(Forbidden(name));
        }
      } else {
        if !(Add in accessParams && accessParams[Add]) {
          return Some(NoAccess(Add));
        }
      }
      dictData := dictData[name := value];
      raised := None;
    }

    /** `__delattr__`; on a raised error nothing changes. */
    method DelAttr(name: string) returns (raised: Option<DictError>)
      modifies this
      ensures Remove(old(View()), name).Ok? ==> raised == None && View() == Remove(old(View()), name).value
      ensures Remove(old(View()), name).Err? ==> raised == Some(Remove(old(View()), name).error)
      ensures Remove(old(View()), name).Err? ==> dictData == old(dictData)
    {
      if !(Delete in accessParams && accessParams[Delete]) {
        return Some(NoAccess(Delete));
      }
      if name in protected {
        return Some(Forbidden(name));
      }
      if name !in dictData {
        return Some(KeyError(name));
      }
      dictData := dictData - {name};
      raised := None;
    }
  }

  /** `dict_factory`: every permission is granted unless switched off. */
  method DictFactory(dictData: map<string, Value>, read: bool := true, change: bool := true, add: bool := true,
                     delete: bool := true, protected: seq<string> := [])
    returns (d: ViaDotDict)
    ensures fresh(d)
    ensures d.View() == Build(dictData, AccessTable(read, change, add, delete), protected)
  {
    var accessParams := AccessTable(read, change, add, delete);
    d := new ViaDotDict(dictData, accessParams, protected);
  }
}
