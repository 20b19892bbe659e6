/** Entities shared by the storage engine and the Place views: the six mapped
    classes, attribute values as they arrive in a JSON request, stored objects
    and the composite "<ClassName>.<id>" keys under which storage lists them. */
module Models {

  datatype Option<+T> = None | Some(value: T)

  /** A value, or the message of the exception raised instead of it. */
  datatype Result<+T> = Ok(value: T) | Err(msg: string)

  /** The six classes the storage engine maps to tables. */
  datatype ClassName = State | City | User | Place | Review | Amenity

  /** The fixed list `all()` walks when it is given no class, in its order. */
  const AllClasses: seq<ClassName> := [State, City, User, Place, Review, Amenity]

  /** The class's `__name__`. */
  function Name(c: ClassName): (s: string)
    ensures |s| > 0 && '.' !in s && s != "BaseModel"
  {
    match c
    case State => "State"
    case City => "City"
    case User => "User"
    case Place => "Place"
    case Review => "Review"
    case Amenity => "Amenity"
  }

  /** Name resolution of `eval(cls)` and `getattr(models, cls)`: exactly the
      six mapped class names resolve; any other name has no mapped class. */
  function Resolve(name: string): (r: Option<ClassName>)
    ensures forall c :: Name(c) == name <==> r == Some(c)
  {
    if name == "State" then Some(State)
    else if name == "City" then Some(City)
    else if name == "User" then Some(User)
    else if name == "Place" then Some(Place)
    else if name == "Review" then Some(Review)
    else if name == "Amenity" then Some(Amenity)
    else None
  }

  /** An attribute or request value, as decoded from JSON. */
  datatype Value = VNull | VBool(b: bool) | VInt(i: int) | VStr(s: string) | VList(items: seq<Value>)

  /** Python truthiness of a decoded value. */
  predicate Truthy(v: Value)
  {
    match v
    case VNull => false
    case VBool(b) => b
    case VInt(i) => i != 0
    case VStr(s) => s != []
    case VList(xs) => xs != []
  }

  /** A stored object: its class, its id and its other attributes. */
  datatype Obj = Obj(kind: ClassName, id: string, attrs: map<string, Value>)

  /** The composite key `"{}.{}".format(type(elem).__name__, elem.id)`. */
  function Key(c: ClassName, id: string): string
  {
    Name(c) + "." + id
  }

  /** The part of a key before its first '.'. */
  function ClassPart(key: string): string
  {
    if key == [] || key[0] == '.' then [] else [key[0]] + ClassPart(key[1..])
  }

  /** The part of a key after its first '.'. */
  function IdPart(key: string): string
  {
    if key == [] then [] else if key[0] == '.' then key[1..] else IdPart(key[1..])
  }

  lemma {:induction false} SplitAtFirstDot(prefix: string, rest: string)
    requires '.' !in prefix
    ensures ClassPart(prefix + "." + rest) == prefix
    ensures IdPart(prefix + "." + rest) == rest
  {
    var key := prefix + "." + rest;
    if prefix == [] {
      assert key == ['.'] + rest;
    } else {
      assert key[0] == prefix[0];
      assert key[1..] == prefix[1..] + "." + rest;
      SplitAtFirstDot(prefix[1..], rest);
    }
  }

  /** A composite key splits back into its class name and its id. */
  lemma KeyParts(c: ClassName, id: string)
    ensures ClassPart(Key(c, id)) == Name(c)
    ensures IdPart(Key(c, id)) == id
  {
    SplitAtFirstDot(Name(c), id);
  }

  /** Two composite keys are equal exactly when class and id are. */
  lemma KeyInjective(c1: ClassName, id1: string, c2: ClassName, id2: string)
    ensures Key(c1, id1) == Key(c2, id2) <==> c1 == c2 && id1 == id2
  {
    if Key(c1, id1) == Key(c2, id2) {
      KeyParts(c1, id1);
      KeyParts(c2, id2);
      assert Resolve(Name(c1)) == Some(c1) && Resolve(Name(c2)) == Some(c2);
    }
  }
}
