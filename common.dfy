/** Values shared by the server services and the admin client: optional values, service
    outcomes, network replies, status messages, Java's 32-bit `int` and the sequence
    operations the client's collection updates are built from. */
module Common {

  datatype Option<+T> = None | Some(value: T)

  /** Why a service call threw. */
  datatype Failure =
    | NotFound          // findById(..).orElseThrow(..)
    | DuplicateEmail    // "이미 사용 중인 이메일입니다."
    | NullValue         // a null the code dereferences or passes to findById
    | UnknownStatus     // OrderStatus.valueOf on a name that is not a constant
    | BadSubdir         // upload directory outside the allow-list
    | BadExtension      // upload extension outside the allow-list
    | BadMime           // upload content type missing or outside the allow-list

  /** Outcome of a service method: its return value, or the exception it throws. */
  datatype Result<+T> = Ok(value: T) | Err(error: Failure)

  /** What `fetch` delivers to the client: a response with its `ok` flag and parsed JSON body,
      or nothing usable (network failure, or a body that is not JSON). */
  datatype Reply<+T> = Answered(ok: bool, body: T) | NoReply

  datatype Level = Success | Error | Warning

  /** The texts the admin client shows, one constant per kind of message. The three stores
      word the list, save and delete messages with their own noun (product, member, order);
      one constant stands for all three wordings. */
  datatype Notice =
    | ListFailed | Created | Updated | Deleted | SaveFailed | DeleteFailed
    | StatusChanged | StatusChangeFailed
    | NameRequired | PriceRequired | ThumbnailRequired | OptionLimit | OptionMinimum
    | EmailRequired | PasswordRequired | MemberNameRequired
    | MemberRequired | ItemIncomplete | ItemMinimum

  /** The single status banner: `{ type: '', text: '' }` is Blank. */
  datatype Message = Blank | Shown(level: Level, notice: Notice)

  /** JavaScript truthiness of an optional numeric id (`null` and `0` are falsy). */
  predicate Truthy(id: Option<int>) {
    id.Some? && id.value != 0
  }

  /** The characters `String.prototype.trim` and Java's `isBlank` both strip (ASCII subset). */
  predicate IsSpace(c: char) {
    c == ' ' || c == '\t' || c == '\n' || c == '\r' || c == '\U{000B}' || c == '\U{000C}'
  }

  /** `!s.trim()` in JavaScript, `s.isBlank()` in Java. */
  predicate IsBlank(s: string) {
    forall i :: 0 <= i < |s| ==> IsSpace(s[i])
  }

  /** The React key of an edit form: `editingId || 'new'`; a new key remounts the form. */
  datatype FormKey = New | Editing(id: int)

  function KeyOf(editingId: Option<int>): (k: FormKey)
    ensures k == New <==> !Truthy(editingId)
    ensures k.Editing? ==> k.id == editingId.value
  {
    if Truthy(editingId) then Editing(editingId.value) else New
  }

  /** Two sessions share a form instance exactly when both create, or both edit the same id. */
  lemma KeyOfDistinguishes(a: Option<int>, b: Option<int>)
    ensures KeyOf(a) == KeyOf(b) <==>
      (!Truthy(a) && !Truthy(b)) || (Truthy(a) && Truthy(b) && a.value == b.value)
  {
  }

  // ---------------------------------------------------------------------------------------
  // Java `int`

  const TwoTo31: int := 0x8000_0000
  const TwoTo32: int := 0x1_0000_0000

  predicate InInt32(x: int) {
    -TwoTo31 <= x < TwoTo31
  }

  /** The value Java's 32-bit two's-complement `int` arithmetic yields for the exact result `x`. */
  function Int32(x: int): (r: int)
    ensures InInt32(r)
  {
    (x + TwoTo31) % TwoTo32 - TwoTo31
  }

  /** The wrapped value differs from the exact one by a multiple of 2^32. */
  lemma Int32Wraps(x: int)
    ensures (Int32(x) - x) % TwoTo32 == 0
  {
  }

  lemma Int32Exact(x: int)
    requires InInt32(x)
    ensures Int32(x) == x
  {
  }

  /** Two values congruent modulo 2^32 wrap to the same `int`. */
  lemma Int32Congruent(x: int, y: int)
    requires (x - y) % TwoTo32 == 0
    ensures Int32(x) == Int32(y)
  {
    var k := (x - y) / TwoTo32;
    assert x == y + TwoTo32 * k;
    assert (y + TwoTo32 * k + TwoTo31) % TwoTo32 == (y + TwoTo31) % TwoTo32;
  }

  /** Wrapping an intermediate sum does not change the wrapped total. */
  lemma Int32AddWrapped(a: int, b: int)
    ensures Int32(Int32(a) + b) == Int32(a + b)
  {
    Int32Wraps(a);
    Int32Congruent(Int32(a) + b, a + b);
  }

  /** Wrapping a factor does not change the wrapped product. */
  lemma Int32MulWrapped(a: int, b: int)
    ensures Int32(Int32(a) * b) == Int32(a * b)
  {
    Int32Wraps(a);
    var d := Int32(a) - a;
    var k := d / TwoTo32;
    assert d == TwoTo32 * k;
    calc {
      Int32(a) * b - a * b;
      d * b;
      TwoTo32 * (k * b);
    }
    Int32Congruent(Int32(a) * b, a * b);
  }

  // ---------------------------------------------------------------------------------------
  // Sequences

  /** `s.filter((_, k) => k !== i)`: drops position `i`, a no-op when `i` is not an index. */
  function RemoveAt<T>(s: seq<T>, i: int): (r: seq<T>)
    ensures 0 <= i < |s| ==> |r| == |s| - 1
    ensures 0 <= i < |s| ==> forall k :: 0 <= k < |r| ==> r[k] == (if k < i then s[k] else s[k + 1])
    ensures !(0 <= i < |s|) ==> r == s
  {
    if 0 <= i < |s| then s[..i] + s[i + 1..] else s
  }

  /** A sequence is its part before `i`, its element at `i` and its part after. */
  lemma SplitAt<T>(s: seq<T>, i: int)
    requires 0 <= i < |s|
    ensures s == s[..i] + ([s[i]] + s[i + 1..])
  {
  }

  /** Dropping a position takes exactly that element out of the multiset. */
  lemma MultisetRemoveAt<T>(s: seq<T>, i: int)
    requires 0 <= i < |s|
    ensures multiset(RemoveAt(s, i)) == multiset(s) - multiset{s[i]}
  {
    SplitAt(s, i);
    assert multiset(s) == multiset(s[..i]) + multiset{s[i]} + multiset(s[i + 1..]);
  }

  /** Dropping the element between two parts leaves the two parts. */
  lemma RemoveAtMiddle<T>(a: seq<T>, x: T, c: seq<T>)
    ensures RemoveAt(a + ([x] + c), |a|) == a + c
  {
    var s := a + ([x] + c);
    assert s[..|a|] == a;
    assert s[|a| + 1..] == c;
  }

  /** `[s[i], s[j]] = [s[j], s[i]]` on an array copy. */
  function Swap<T>(s: seq<T>, i: int, j: int): (r: seq<T>)
    requires 0 <= i < |s| && 0 <= j < |s|
    ensures |r| == |s| && r[i] == s[j] && r[j] == s[i]
    ensures forall k :: 0 <= k < |s| && k != i && k != j ==> r[k] == s[k]
    ensures multiset(r) == multiset(s)
  {
    s[i := s[j]][j := s[i]]
  }

  /** Every element has a distinct key: the collection invariant of the client stores. */
  predicate UniqueKeys<T>(s: seq<T>, key: T -> int) {
    forall i, j :: 0 <= i < j < |s| ==> key(s[i]) != key(s[j])
  }

  predicate HasKey<T>(s: seq<T>, key: T -> int, id: int) {
    exists k :: 0 <= k < |s| && key(s[k]) == id
  }

  /** `s.map(it => key(it) === key(item) ? item : it)` */
  function ReplaceByKey<T>(s: seq<T>, key: T -> int, item: T): (r: seq<T>)
    ensures |r| == |s|
  {
    seq(|s|, k requires 0 <= k < |s| => if key(s[k]) == key(item) then item else s[k])
  }

  /** `s.filter(it => key(it) !== id)` */
  function RemoveByKey<T>(s: seq<T>, key: T -> int, id: int): (r: seq<T>)
    ensures |r| <= |s|
  {
    if s == [] then []
    else if key(s[0]) == id then RemoveByKey(s[1..], key, id)
    else [s[0]] + RemoveByKey(s[1..], key, id)
  }

  /** A reply the client treats as success: a response whose `res.ok` holds. */
  predicate Accepted<T>(reply: Reply<T>) {
    reply.Answered? && reply.ok
  }

  /** A store's collection once a saved item comes back: replaced by key when an id was being
      edited (`editingId` truthy), prepended otherwise. */
  function Saved<T>(s: seq<T>, key: T -> int, item: T, editing: Option<int>): (r: seq<T>)
    ensures Truthy(editing) ==> |r| == |s|
    ensures !Truthy(editing) ==> |r| == |s| + 1
  {
    if Truthy(editing) then ReplaceByKey(s, key, item) else [item] + s
  }

  /** Replacing by a key no element carries changes nothing. */
  lemma ReplaceByKeyAbsent<T>(s: seq<T>, key: T -> int, item: T)
    requires !HasKey(s, key, key(item))
    ensures ReplaceByKey(s, key, item) == s
  {
  }

  /** The saved item ends up in the collection exactly when it was created or when an element
      with its key was listed: an edit echoed for an unlisted id is dropped. */
  lemma SavedContains<T>(s: seq<T>, key: T -> int, item: T, editing: Option<int>)
    ensures item in Saved(s, key, item, editing) <==> !Truthy(editing) || HasKey(s, key, key(item))
  {
    if Truthy(editing) {
      var r := Saved(s, key, item, editing);
      if HasKey(s, key, key(item)) {
        var k :| 0 <= k < |s| && key(s[k]) == key(item);
        assert r[k] == item;
      }
      if item in r {
        var k :| 0 <= k < |r| && r[k] == item;
        assert key(s[k]) == key(item);
      }
    }
  }

  /** Every element whose key differs from the saved one stays, in its place or one further
      along. */
  lemma SavedKeepsOthers<T>(s: seq<T>, key: T -> int, item: T, editing: Option<int>)
    ensures Truthy(editing) ==> forall k :: 0 <= k < |s| && key(s[k]) != key(item) ==> Saved(s, key, item, editing)[k] == s[k]
    ensures !Truthy(editing) ==> Saved(s, key, item, editing)[0] == item
    ensures !Truthy(editing) ==> forall k :: 0 <= k < |s| ==> Saved(s, key, item, editing)[k + 1] == s[k]
  {
  }

  /** Saving keeps the keys unique when it edits, or when it creates an item with a fresh key. */
  lemma SavedKeepsUnique<T>(s: seq<T>, key: T -> int, item: T, editing: Option<int>)
    requires UniqueKeys(s, key)
    requires Truthy(editing) || !HasKey(s, key, key(item))
    ensures UniqueKeys(Saved(s, key, item, editing), key)
  {
    if Truthy(editing) {
      ReplaceByKeyPositions(s, key, item);
    } else {
      PrependFreshKeepsUnique(s, key, item);
    }
  }

  /** Filtering keeps exactly the elements whose key differs from `id`. */
  lemma {:induction false} RemoveByKeyMembers<T>(s: seq<T>, key: T -> int, id: int)
    ensures forall x :: x in RemoveByKey(s, key, id) ==> x in s
    ensures forall x :: x in RemoveByKey(s, key, id) ==> key(x) != id
    ensures forall x :: x in s && key(x) != id ==> x in RemoveByKey(s, key, id)
    decreases |s|
  {
    if s != [] {
      RemoveByKeyMembers(s[1..], key, id);
      assert s == [s[0]] + s[1..];
    }
  }

  /** Replacing by key keeps every position's key, so the element echoed for an id stands
      exactly where elements with that id stood and nothing else moves. */
  lemma ReplaceByKeyPositions<T>(s: seq<T>, key: T -> int, item: T)
    ensures forall k :: 0 <= k < |s| ==> key(ReplaceByKey(s, key, item)[k]) == key(s[k])
    ensures forall k :: 0 <= k < |s| && key(s[k]) != key(item) ==> ReplaceByKey(s, key, item)[k] == s[k]
    ensures forall k :: 0 <= k < |s| && key(s[k]) == key(item) ==> ReplaceByKey(s, key, item)[k] == item
    ensures UniqueKeys(s, key) ==> UniqueKeys(ReplaceByKey(s, key, item), key)
  {
  }

  /** An item with a key not yet present may be prepended without breaking uniqueness. */
  lemma PrependFreshKeepsUnique<T>(s: seq<T>, key: T -> int, item: T)
    requires UniqueKeys(s, key) && !HasKey(s, key, key(item))
    ensures UniqueKeys([item] + s, key)
  {
    forall i, j | 0 <= i < j < |[item] + s|
      ensures key(([item] + s)[i]) != key(([item] + s)[j])
    {
      if i == 0 {
        assert ([item] + s)[j] == s[j - 1];
      }
    }
  }

  /** Filtering by key removes exactly the one element carrying that key, when keys are unique. */
  lemma {:induction false} RemoveByKeyExactlyOne<T>(s: seq<T>, key: T -> int, i: int)
    requires UniqueKeys(s, key) && 0 <= i < |s|
    ensures RemoveByKey(s, key, key(s[i])) == s[..i] + s[i + 1..]
    decreases |s|
  {
    var id := key(s[i]);
    if i == 0 {
      RemoveByKeyAbsent(s[1..], key, id);
      assert s[..0] + s[1..] == s[1..];
    } else {
      assert UniqueKeys(s[1..], key) by {
        forall a, b | 0 <= a < b < |s[1..]| ensures key(s[1..][a]) != key(s[1..][b]) {
          assert s[1..][a] == s[a + 1] && s[1..][b] == s[b + 1];
        }
      }
      assert s[1..][i - 1] == s[i];
      RemoveByKeyExactlyOne(s[1..], key, i - 1);
      assert key(s[0]) != id;
      assert [s[0]] + (s[1..][..i - 1] + s[1..][i..]) == s[..i] + s[i + 1..];
    }
  }

  /** Filtering by an id no element carries changes nothing. */
  lemma {:induction false} RemoveByKeyAbsent<T>(s: seq<T>, key: T -> int, id: int)
    requires !HasKey(s, key, id)
    ensures RemoveByKey(s, key, id) == s
    decreases |s|
  {
    if s != [] {
      assert key(s[0]) != id;
      assert !HasKey(s[1..], key, id) by {
        forall k | 0 <= k < |s[1..]| ensures key(s[1..][k]) != id {
          assert s[1..][k] == s[k + 1];
        }
      }
      RemoveByKeyAbsent(s[1..], key, id);
      assert [s[0]] + s[1..] == s;
    }
  }

  /** Filtering by one key keeps any other key unique. */
  lemma {:induction false} RemoveByKeyKeepsUnique<T>(s: seq<T>, key: T -> int, id: int, unique: T -> int)
    requires UniqueKeys(s, unique)
    ensures UniqueKeys(RemoveByKey(s, key, id), unique)
    decreases |s|
  {
    if s != [] {
      assert UniqueKeys(s[1..], unique) by {
        forall a, b | 0 <= a < b < |s[1..]| ensures unique(s[1..][a]) != unique(s[1..][b]) {
          assert s[1..][a] == s[a + 1] && s[1..][b] == s[b + 1];
        }
      }
      RemoveByKeyKeepsUnique(s[1..], key, id, unique);
      var rest := RemoveByKey(s[1..], key, id);
      RemoveByKeyMembers(s[1..], key, id);
      if key(s[0]) != id {
        assert !HasKey(rest, unique, unique(s[0])) by {
          forall k | 0 <= k < |rest| ensures unique(rest[k]) != unique(s[0]) {
            assert rest[k] in rest;
            var m :| 0 <= m < |s[1..]| && s[1..][m] == rest[k];
            assert s[1..][m] == s[m + 1];
          }
        }
        PrependFreshKeepsUnique(rest, unique, s[0]);
      }
    }
  }

  /** Two unique-keyed sequences whose keys do not meet concatenate to a unique-keyed one. */
  lemma AppendKeepsUnique<T>(a: seq<T>, b: seq<T>, key: T -> int)
    requires UniqueKeys(a, key) && UniqueKeys(b, key)
    requires forall i, j :: 0 <= i < |a| && 0 <= j < |b| ==> key(a[i]) != key(b[j])
    ensures UniqueKeys(a + b, key)
  {
    forall i, j | 0 <= i < j < |a + b| ensures key((a + b)[i]) != key((a + b)[j]) {
      if j >= |a| {
        assert (a + b)[j] == b[j - |a|];
        if i >= |a| {
          assert (a + b)[i] == b[i - |a|];
        }
      }
    }
  }

  /** Under unique keys, two different elements have different keys. */
  lemma UniqueKeysDistinct<T>(s: seq<T>, key: T -> int, x: T, y: T)
    requires UniqueKeys(s, key) && x in s && y in s && x != y
    ensures key(x) != key(y)
  {
    var i :| 0 <= i < |s| && s[i] == x;
    var j :| 0 <= j < |s| && s[j] == y;
    assert i != j;
  }
}
