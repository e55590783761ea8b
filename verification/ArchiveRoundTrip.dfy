/** An archive unpacks to what was packed exactly when no digest is shared by different bodies. */
module ArchiveRoundTrip {
  import opened Wrappers
  import opened Lines
  import opened Text
  import opened Archive

  // ---- Hard links --------------------------------------------------------------------------

  function KeyOf(files: map<string, Entry>, name: string, digest: Bytes -> Digest): (Digest, nat)
    requires name in files
  {
    (digest(files[name].body), files[name].mode)
  }

  /** The member at `i` is stored, or names a body written before it under the same key. */
  ghost predicate NamesEarlier(files: map<string, Entry>, members: seq<Member>, i: nat, seen: Seen,
                               digest: Bytes -> Digest)
    requires i < |members| && members[i].name in files
  {
    members[i].Hard? ==>
      var key := KeyOf(files, members[i].name, digest);
      || (key in seen && seen[key] == members[i].target)
      || exists j | 0 <= j < i :: StoresKey(members[j], members[i].target, key, digest)
  }

  predicate StoresKey(member: Member, name: string, key: (Digest, nat), digest: Bytes -> Digest) {
    member.Stored? && member.name == name && (digest(member.body), member.mode) == key
  }

  predicate Carries(member: Member, name: string, entry: Entry) {
    member.name == name && member.mode == entry.mode && (member.Stored? ==> member.body == entry.body)
  }

  lemma {:induction false} PackedShape(files: map<string, Entry>, order: seq<string>, seen: Seen,
                                       digest: Bytes -> Digest, i: nat)
    requires forall k | 0 <= k < |order| :: order[k] in files
    requires Pack(files, order, seen, digest).Ok? && i < |order|
    ensures var members := Pack(files, order, seen, digest).value;
            |members| == |order| && Carries(members[i], order[i], files[order[i]])
  {
    var members := Pack(files, order, seen, digest).value;
    if |order| > 1 {
      var key := KeyOf(files, order[0], digest);
      var seen' := if key in seen then seen else seen[key := order[0]];
      PackedShape(files, order[1..], seen', digest, if i == 0 then 0 else i - 1);
      if i > 0 {
        assert members[1..][i - 1] == members[i] && order[1..][i - 1] == order[i];
      }
    }
  }

  lemma {:induction false} PackedLinks(files: map<string, Entry>, order: seq<string>, seen: Seen,
                                       digest: Bytes -> Digest, i: nat)
    requires forall k | 0 <= k < |order| :: order[k] in files
    requires Pack(files, order, seen, digest).Ok? && i < |order|
    ensures var members := Pack(files, order, seen, digest).value;
            |members| == |order| && members[i].name == order[i] && NamesEarlier(files, members, i, seen, digest)
  {
    PackedShape(files, order, seen, digest, i);
    if i > 0 {
      var key := KeyOf(files, order[0], digest);
      var seen' := if key in seen then seen else seen[key := order[0]];
      PackedShape(files, order[1..], seen', digest, i - 1);
      PackedLinks(files, order[1..], seen', digest, i - 1);
      EarlierStill(files, Pack(files, order, seen, digest).value, i, seen, seen', digest);
    }
  }

  /** What a link names among the later members, it names among all of them. */
  lemma EarlierStill(files: map<string, Entry>, members: seq<Member>, i: nat, seen: Seen, seen': Seen,
                     digest: Bytes -> Digest)
    requires 0 < i < |members| && members[i].name in files && NamesEarlier(files, members[1..], i - 1, seen', digest)
    requires forall key | key in seen' :: (key in seen && seen[key] == seen'[key])
                                          || StoresKey(members[0], seen'[key], key, digest)
    ensures NamesEarlier(files, members, i, seen, digest)
  {
    if members[i].Hard? {
      var key := KeyOf(files, members[i].name, digest);
      if j :| 0 <= j < i - 1 && StoresKey(members[1..][j], members[i].target, key, digest) {
        assert StoresKey(members[j + 1], members[i].target, key, digest);
      }
    }
  }

  /** Every hard link names a regular member before it, of the same mode and digest. */
  lemma HardLinksNameEarlier(files: map<string, Entry>, order: seq<string>, digest: Bytes -> Digest, i: nat)
    requires forall k | 0 <= k < |order| :: order[k] in files
    requires Pack(files, order, map[], digest).Ok? && i < |order|
    ensures var members := Pack(files, order, map[], digest).value;
            && |members| == |order| && members[i].name == order[i]
            && (members[i].Hard? ==>
                  exists j | 0 <= j < i ::
                      StoresKey(members[j], members[i].target, KeyOf(files, order[i], digest), digest))
  {
    PackedLinks(files, order, map[], digest, i);
  }

  lemma {:induction false} PacksSafeNames(files: map<string, Entry>, order: seq<string>, seen: Seen,
                                          digest: Bytes -> Digest)
    requires forall k | 0 <= k < |order| :: order[k] in files
    ensures Pack(files, order, seen, digest).Ok? <==> forall k | 0 <= k < |order| :: SafePath(order[k]).Ok?
  {
    if order != [] {
      var key := KeyOf(files, order[0], digest);
      PacksSafeNames(files, order[1..], if key in seen then seen else seen[key := order[0]], digest);
      assert forall k | 0 <= k < |order| - 1 :: order[1..][k] == order[k + 1];
      assert forall k | 0 < k < |order| :: order[k] == order[1..][k - 1];
    }
  }

  // ---- Places ------------------------------------------------------------------------------

  lemma DotNamesNothing(rest: string)
    ensures Parts(['.', '/'] + rest) == Parts(rest)
  {
    SplitLine(['.'], '/', rest);
    assert ['.'] + ['/'] + rest == ['.', '/'] + rest;
    var components := Split(['.', '/'] + rest, '/');
    assert components == [['.']] + Split(rest, '/');
    assert Named(components) == Named(components[1..]);
  }

  /** What the writer accepts, the extraction accepts. */
  lemma SafeToExtract(name: string)
    requires SafePath(name).Ok?
    ensures !Absolute(name) && !ClimbsUp(name)
  {
    if WithoutDot(name) != name {
      assert name == ['.', '/'] + name[2..];
      DotNamesNothing(name[2..]);
    }
  }

  /** The names denote the files of one directory tree. */
  ghost predicate Placed(files: map<string, Entry>) {
    && (forall name | name in files :: SafePath(name).Ok? && Parts(name) != [])
    && (forall a, b | a in files && b in files && a != b :: !(Parts(a) <= Parts(b)))
  }

  // ---- Unpacking ---------------------------------------------------------------------------

  ghost function Places(names: set<string>): set<Place> {
    set name | name in names :: Parts(name)
  }

  ghost predicate Apart(names: set<string>) {
    forall a, b | a in names && b in names && Parts(a) == Parts(b) :: a == b
  }

  /** Names have as many places as there are names exactly when no two of them share one. */
  lemma {:induction false} PlacesCount(names: set<string>)
    ensures |Places(names)| <= |names|
    ensures |Places(names)| == |names| <==> Apart(names)
  {
    if names != {} {
      var name :| name in names;
      var rest := names - {name};
      PlacesCount(rest);
      assert Places(names) == Places(rest) + {Parts(name)};
      if Parts(name) in Places(rest) {
        var other :| other in rest && Parts(other) == Parts(name);
        assert Places(names) == Places(rest) && !Apart(names);
      } else {
        assert forall other | other in rest :: Parts(other) in Places(rest);
        assert Apart(names) <==> Apart(rest);
      }
    }
  }

  /** The disk holds files at the places of these names and nowhere else. */
  ghost predicate Occupied(done: set<string>, disk: Disk) {
    disk.names.Keys == Places(done)
  }

  /** Each key leads to a name that carries it. */
  ghost predicate Keyed(files: map<string, Entry>, done: set<string>, seen: Seen, digest: Bytes -> Digest)
    requires done <= files.Keys
  {
    forall key | key in seen :: seen[key] in done && KeyOf(files, seen[key], digest) == key
  }

  /** The name reads as the body first stored under its key. */
  ghost predicate ReadsAs(files: map<string, Entry>, name: string, seen: Seen, disk: Disk, digest: Bytes -> Digest)
    requires name in files && Linked(disk)
  {
    var key := KeyOf(files, name, digest);
    && key in seen && seen[key] in files
    && ReadAt(disk, Parts(name)) == Some(Entry(files[seen[key]].body, files[name].mode % 512))
  }

  ghost predicate AllRead(files: map<string, Entry>, done: set<string>, seen: Seen, disk: Disk, digest: Bytes -> Digest)
    requires done <= files.Keys && Linked(disk)
  {
    forall name | name in done :: ReadsAs(files, name, seen, disk, digest)
  }

  lemma RoomFor(files: map<string, Entry>, done: set<string>, name: string, disk: Disk)
    requires Placed(files) && done <= files.Keys && name in files && name !in done && Occupied(done, disk)
    ensures Roomy(disk, Parts(name)) && !IsDirectory(disk, Parts(name)) && Parts(name) !in disk.names
  {
    forall other | other in disk.names ensures !(other <= Parts(name)) && !(Parts(name) <= other) {
      var taken :| taken in done && Parts(taken) == other;
    }
  }

  predicate Agrees(disk: Disk, disk': Disk)
    requires Linked(disk) && Linked(disk')
  {
    forall place | place in disk.names :: place in disk'.names && ReadAt(disk', place) == ReadAt(disk, place)
  }

  /** A fresh name, written or linked, leaves every other name as it was. */
  lemma FreshName(disk: Disk, place: Place, entry: Entry, target: Place)
    requires Linked(disk) && place !in disk.names
    ensures Agrees(disk, WriteAt(disk, place, entry)) && ReadAt(WriteAt(disk, place, entry), place) == Some(entry)
    ensures target in disk.names ==>
              var linked := disk.(names := disk.names[place := disk.names[target]]);
              Linked(linked) && Agrees(disk, linked) && ReadAt(linked, place) == ReadAt(disk, target)
  {
  }

  function MemberFor(files: map<string, Entry>, name: string, seen: Seen, digest: Bytes -> Digest): Member
    requires name in files
  {
    var key := KeyOf(files, name, digest);
    if key in seen then Hard(name, files[name].mode, seen[key]) else Stored(name, files[name].mode, files[name].body)
  }

  function SeenAfter(files: map<string, Entry>, name: string, seen: Seen, digest: Bytes -> Digest): Seen
    requires name in files
  {
    var key := KeyOf(files, name, digest);
    if key in seen then seen else seen[key := name]
  }

  /** What is read stays read, when one more name is and the others read the same. */
  lemma ReadMore(files: map<string, Entry>, done: set<string>, name: string, seen: Seen, disk: Disk, disk': Disk,
                 digest: Bytes -> Digest)
    requires done <= files.Keys && name in files && Linked(disk) && Linked(disk') && Agrees(disk, disk')
    requires AllRead(files, done, seen, disk, digest)
    requires ReadsAs(files, name, SeenAfter(files, name, seen, digest), disk', digest)
    ensures AllRead(files, done + {name}, SeenAfter(files, name, seen, digest), disk', digest)
  {
    forall other | other in done ensures ReadsAs(files, other, SeenAfter(files, name, seen, digest), disk', digest) {
      assert ReadsAs(files, other, seen, disk, digest);
    }
  }

  lemma KeyMore(files: map<string, Entry>, done: set<string>, name: string, seen: Seen, digest: Bytes -> Digest)
    requires done <= files.Keys && name in files && Keyed(files, done, seen, digest)
    ensures Keyed(files, done + {name}, SeenAfter(files, name, seen, digest), digest)
  {
  }

  lemma StoredOne(disk: Disk, name: string, mode: nat, body: Bytes)
    requires Linked(disk) && SafePath(name).Ok?
    requires Roomy(disk, Parts(name)) && !IsDirectory(disk, Parts(name)) && Parts(name) !in disk.names
    ensures var extracted := ExtractOne(disk, Stored(name, mode, body));
            && extracted.Ok? && extracted.value.names.Keys == disk.names.Keys + {Parts(name)}
                && Agrees(disk, extracted.value)
            && ReadAt(extracted.value, Parts(name)) == Some(Entry(body, mode % 512))
  {
    SafeToExtract(name);
    FreshName(disk, Parts(name), Entry(body, mode % 512), []);
  }

  lemma HardOne(disk: Disk, name: string, mode: nat, target: string)
    requires Linked(disk) && SafePath(name).Ok? && SafePath(target).Ok? && Parts(target) in disk.names
    requires Roomy(disk, Parts(name)) && !IsDirectory(disk, Parts(name)) && Parts(name) !in disk.names
    ensures var extracted := ExtractOne(disk, Hard(name, mode, target));
            && extracted.Ok? && extracted.value.names.Keys == disk.names.Keys + {Parts(name)}
                && Agrees(disk, extracted.value)
            && ReadAt(extracted.value, Parts(name)) == ReadAt(disk, Parts(target))
  {
    SafeToExtract(name);
    SafeToExtract(target);
    FreshName(disk, Parts(name), disk.inodes[disk.names[Parts(target)]], Parts(target));
  }

  /** One member, extracted. */
  lemma UnpackOne(files: map<string, Entry>, done: set<string>, name: string, seen: Seen, disk: Disk,
                  digest: Bytes -> Digest)
    requires Placed(files) && done <= files.Keys && name in files && name !in done && Linked(disk)
    requires Occupied(done, disk) && Keyed(files, done, seen, digest) && AllRead(files, done, seen, disk, digest)
    ensures var extracted := ExtractOne(disk, MemberFor(files, name, seen, digest));
            && extracted.Ok? && extracted.value.names.Keys == disk.names.Keys + {Parts(name)}
                && Agrees(disk, extracted.value)
            && ReadsAs(files, name, SeenAfter(files, name, seen, digest), extracted.value, digest)
  {
    var entry, key := files[name], KeyOf(files, name, digest);
    RoomFor(files, done, name, disk);
    if key in seen {
      assert ReadsAs(files, seen[key], seen, disk, digest);
      HardOne(disk, name, entry.mode, seen[key]);
    } else {
      StoredOne(disk, name, entry.mode, entry.body);
    }
  }

  /** The names in `done` are unpacked. */
  ghost predicate Midway(files: map<string, Entry>, done: set<string>, seen: Seen, disk: Disk, digest: Bytes -> Digest)
  {
    && done <= files.Keys && Linked(disk) && Occupied(done, disk)
    && Keyed(files, done, seen, digest) && AllRead(files, done, seen, disk, digest)
  }

  lemma MidwayOne(files: map<string, Entry>, done: set<string>, name: string, seen: Seen, disk: Disk,
                  digest: Bytes -> Digest)
    requires Placed(files) && Midway(files, done, seen, disk, digest) && name in files && name !in done
    ensures ExtractOne(disk, MemberFor(files, name, seen, digest)).Ok?
    ensures Midway(files, done + {name}, SeenAfter(files, name, seen, digest),
                   ExtractOne(disk, MemberFor(files, name, seen, digest)).value, digest)
  {
    UnpackOne(files, done, name, seen, disk, digest);
    var one := ExtractOne(disk, MemberFor(files, name, seen, digest)).value;
    ReadMore(files, done, name, seen, disk, one, digest);
    KeyMore(files, done, name, seen, digest);
    assert Occupied(done + {name}, one);
  }

  /** The order lists distinct names still to come. */
  ghost predicate ToCome(order: seq<string>, done: set<string>, files: map<string, Entry>) {
    && (forall k | 0 <= k < |order| :: order[k] in files && order[k] !in done)
    && (forall j, k | 0 <= j < k < |order| :: order[j] != order[k])
  }

  lemma ToComeTail(order: seq<string>, done: set<string>, files: map<string, Entry>)
    requires order != [] && ToCome(order, done, files)
    ensures ToCome(order[1..], done + {order[0]}, files)
  {
  }

  function NamesIn(order: seq<string>): set<string> {
    if order == [] then {} else {order[0]} + NamesIn(order[1..])
  }

  lemma PackHead(files: map<string, Entry>, order: seq<string>, seen: Seen, digest: Bytes -> Digest)
    requires order != [] && (forall k | 0 <= k < |order| :: order[k] in files) && SafePath(order[0]).Ok?
    requires Pack(files, order[1..], SeenAfter(files, order[0], seen, digest), digest).Ok?
    ensures Pack(files, order, seen, digest)
         == Ok([MemberFor(files, order[0], seen, digest)]
               + Pack(files, order[1..], SeenAfter(files, order[0], seen, digest), digest).value)
  {
  }

  /** The disk and the keys seen once the rest of the order is extracted. */
  function After(files: map<string, Entry>, order: seq<string>, seen: Seen, disk: Disk,
                 digest: Bytes -> Digest): (Disk, Seen)
    requires (forall k | 0 <= k < |order| :: order[k] in files) && Linked(disk)
    decreases |order|
  {
    if order == [] then (disk, seen)
    else
      match ExtractOne(disk, MemberFor(files, order[0], seen, digest))
      case Err(_) => (disk, seen)
      case Ok(one) => After(files, order[1..], SeenAfter(files, order[0], seen, digest), one, digest)
  }

  lemma NothingAnd(a: set<string>)
    ensures {} + a == a
  {
  }

  lemma InsertThenUnion(a: set<string>, name: string, b: set<string>)
    ensures a + {name} + b == a + ({name} + b)
  {
  }

  lemma {:induction false} AfterIsMidway(files: map<string, Entry>, done: set<string>, order: seq<string>, seen: Seen,
                                         disk: Disk, digest: Bytes -> Digest)
    requires Placed(files) && Midway(files, done, seen, disk, digest) && ToCome(order, done, files)
    ensures var (last, seen') := After(files, order, seen, disk, digest);
            Midway(files, done + NamesIn(order), seen', last, digest)
    decreases |order|
  {
    if order == [] {
      assert done + {} == done;
    } else {
      var name, rest := order[0], order[1..];
      MidwayOne(files, done, name, seen, disk, digest);
      ToComeTail(order, done, files);
      AfterIsMidway(files, done + {name}, rest, SeenAfter(files, name, seen, digest),
                    ExtractOne(disk, MemberFor(files, name, seen, digest)).value, digest);
      InsertThenUnion(done, name, NamesIn(rest));
    }
  }

  lemma {:induction false} UnpackRest(files: map<string, Entry>, done: set<string>, order: seq<string>, seen: Seen,
                                      disk: Disk, digest: Bytes -> Digest)
    requires Placed(files) && Midway(files, done, seen, disk, digest) && ToCome(order, done, files)
    ensures Pack(files, order, seen, digest).Ok?
    ensures Extract(disk, Pack(files, order, seen, digest).value) == Ok(After(files, order, seen, disk, digest).0)
    decreases |order|
  {
    if order != [] {
      var name, rest := order[0], order[1..];
      MidwayOne(files, done, name, seen, disk, digest);
      ToComeTail(order, done, files);
      UnpackRest(files, done + {name}, rest, SeenAfter(files, name, seen, digest),
                 ExtractOne(disk, MemberFor(files, name, seen, digest)).value, digest);
      PackHead(files, order, seen, digest);
    }
  }

  // ---- The round trip ----------------------------------------------------------------------

  /** The disk holds exactly these files, one for each name, with the mode bits extraction sets. */
  ghost predicate Restored(files: map<string, Entry>, disk: Disk)
    requires Linked(disk)
  {
    && disk.names.Keys == Places(files.Keys) && |disk.names.Keys| == |files.Keys|
    && forall name | name in files :: ReadAt(disk, Parts(name)) == Some(Entry(files[name].body, files[name].mode % 512))
  }

  /** No two bodies of the same mode share a digest. */
  ghost predicate NoCollision(files: map<string, Entry>, digest: Bytes -> Digest) {
    forall a, b | a in files && b in files ::
      KeyOf(files, a, digest) == KeyOf(files, b, digest) ==> files[a].body == files[b].body
  }

  /** The order lists every name once. */
  ghost predicate Enumerates(order: seq<string>, files: map<string, Entry>) {
    ToCome(order, {}, files) && files.Keys == NamesIn(order)
  }

  /** No file stands where another's directory must be. */
  ghost predicate Treelike(disk: Disk) {
    && [] !in disk.names
    && forall a, b | a in disk.names && b in disk.names && a <= b :: a == b
  }

  lemma ExtractsTreelike(disk: Disk, member: Member)
    requires Linked(disk) && Treelike(disk) && ExtractOne(disk, member).Ok?
    ensures Treelike(ExtractOne(disk, member).value)
  {
    var place := Parts(member.name);
    if place !in disk.names {
      assert forall other | other in disk.names :: !(place < other) && !(other < place);
    }
  }

  lemma {:induction false} ExtractTreelike(disk: Disk, members: seq<Member>)
    requires Linked(disk) && Treelike(disk) && Extract(disk, members).Ok?
    ensures Treelike(Extract(disk, members).value)
    decreases |members|
  {
    if members != [] {
      ExtractsTreelike(disk, members[0]);
      ExtractTreelike(ExtractOne(disk, members[0]).value, members[1..]);
    }
  }

  /** A table that is restored, one file a name, is the table of one directory tree. */
  lemma RestoredIsPlaced(files: map<string, Entry>, disk: Disk)
    requires Linked(disk) && Treelike(disk) && Restored(files, disk)
    requires forall name | name in files :: SafePath(name).Ok?
    ensures Placed(files)
  {
    PlacesCount(files.Keys);
    forall name | name in files ensures Parts(name) in disk.names {
      assert Parts(name) in Places(files.Keys);
    }
  }

  /** Files of one directory tree always pack and unpack. */
  lemma PlacedUnpacks(files: map<string, Entry>, order: seq<string>, digest: Bytes -> Digest)
    requires Placed(files) && Enumerates(order, files)
    ensures Pack(files, order, map[], digest).Ok?
    ensures var extracted := Extract(EMPTY_DISK, Pack(files, order, map[], digest).value);
            extracted.Ok? && (Restored(files, extracted.value) <==> NoCollision(files, digest))
  {
    UnpackRest(files, {}, order, map[], EMPTY_DISK, digest);
    AfterIsMidway(files, {}, order, map[], EMPTY_DISK, digest);
    var (last, seen) := After(files, order, map[], EMPTY_DISK, digest);
    NothingAnd(files.Keys);
    RestoredMeans(files, seen, last, digest);
  }

  /** The table packs, its archive unpacks, and every name has its own file again. */
  ghost predicate ComesBack(files: map<string, Entry>, order: seq<string>, digest: Bytes -> Digest)
    requires forall k | 0 <= k < |order| :: order[k] in files
  {
    var packed := Pack(files, order, map[], digest);
    packed.Ok?
    && var extracted := Extract(EMPTY_DISK, packed.value);
       extracted.Ok? && Restored(files, extracted.value)
  }

  /**
   Whatever the order, a table of names to bodies and modes comes back from its archive if and only
   if the names are safe and denote the files of one directory tree, and no digest collides among
   files of one mode.
   */
  lemma RoundTrip(files: map<string, Entry>, order: seq<string>, digest: Bytes -> Digest)
    requires Enumerates(order, files)
    ensures ComesBack(files, order, digest) <==> Placed(files) && NoCollision(files, digest)
  {
    if Placed(files) {
      PlacedUnpacks(files, order, digest);
    } else if ComesBack(files, order, digest) {
      var members := Pack(files, order, map[], digest).value;
      PacksSafeNames(files, order, map[], digest);
      AllListed(order);
      ExtractTreelike(EMPTY_DISK, members);
      RestoredIsPlaced(files, Extract(EMPTY_DISK, members).value);
    }
  }

  lemma {:induction false} AllListed(order: seq<string>)
    ensures forall name | name in NamesIn(order) :: name in order
  {
    if order != [] {
      AllListed(order[1..]);
    }
  }

  lemma RestoredMeans(files: map<string, Entry>, seen: Seen, disk: Disk, digest: Bytes -> Digest)
    requires Placed(files) && Linked(disk) && Occupied(files.Keys, disk)
    requires Keyed(files, files.Keys, seen, digest) && AllRead(files, files.Keys, seen, disk, digest)
    ensures Restored(files, disk) <==> NoCollision(files, digest)
  {
    PlacesCount(files.Keys);
    if Restored(files, disk) {
      forall a, b | a in files && b in files && KeyOf(files, a, digest) == KeyOf(files, b, digest)
        ensures files[a].body == files[b].body
      {
        assert ReadsAs(files, a, seen, disk, digest) && ReadsAs(files, b, seen, disk, digest);
      }
    }
    if NoCollision(files, digest) {
      forall name | name in files
        ensures ReadAt(disk, Parts(name)) == Some(Entry(files[name].body, files[name].mode % 512))
      {
        assert ReadsAs(files, name, seen, disk, digest);
        var first := seen[KeyOf(files, name, digest)];
        assert KeyOf(files, first, digest) == KeyOf(files, name, digest);
      }
    }
  }
}
