/**
 The runtime archive: links resolved in place, identical files stored once, and the extraction
 that reads it back.

 A digest is a given function of a body; paths are the text they are.
 */
module Archive {
  import opened Wrappers
  import opened Lines
  import opened Text

  type Digest = Bytes

  /** A regular file; `None` in a file table is a directory. */
  datatype Entry = Entry(body: Bytes, mode: nat)

  datatype Error = Unsafe(path: string) | Cyclic(name: string) | Unresolved(name: string) | Unsupported(name: string)
      | Os

  type Files = map<string, Option<Entry>>

  type Links = map<string, string>

  // ---- Paths -------------------------------------------------------------------------------

  /** The components a path names; empty ones and `.` name nothing. */
  function Parts(path: string): seq<string> {
    Named(Split(path, '/'))
  }

  function Named(components: seq<string>): seq<string> {
    if components == [] then []
    else (if components[0] == [] || components[0] == ['.'] then [] else [components[0]]) + Named(components[1..])
  }

  predicate Absolute(path: string) {
    path != [] && path[0] == '/'
  }

  predicate ClimbsUp(path: string) {
    ['.', '.'] in Parts(path)
  }

  function WithoutDot(path: string): string {
    if |path| >= 2 && path[0] == '.' && path[1] == '/' then path[2..] else path
  }

  function SafePath(path: string): Result<string, Error> {
    var name := WithoutDot(path);
    if name == [] || Absolute(name) || ClimbsUp(name) || '\\' in name then Err(Unsafe(name)) else Ok(name)
  }

  function WithoutSlashes(path: string): string {
    if Absolute(path) then WithoutSlashes(path[1..]) else path
  }

  // ---- Links -------------------------------------------------------------------------------

  /** Where one link leads. */
  function Next(links: Links, name: string): Result<string, Error>
    requires name in links
  {
    SafePath(WithoutSlashes(links[name]))
  }

  function Resolve(files: Files, links: Links, name: string, seen: set<string>): Result<Option<Entry>, Error>
    requires seen <= links.Keys
    decreases links.Keys - seen
  {
    if name in seen then Err(Cyclic(name))
    else if name in files then Ok(files[name])
    else if name !in links then Err(Unresolved(name))
    else
      var next :- Next(links, name);
      Resolve(files, links, next, seen + {name})
  }

  /** Resolves the links in some order, each into the table the next one sees. */
  function Memoise(files: Files, links: Links, order: seq<string>): (Files, Option<Error>)
    decreases |order|
  {
    if order == [] then (files, None)
    else
      match Resolve(files, links, order[0], {})
      case Err(error) => (files, Some(error))
      case Ok(entry) => Memoise(files[order[0] := entry], links, order[1..])
  }

  /** The regular files of a table. */
  function Regular(files: Files): map<string, Entry> {
    map name | name in files && files[name].Some? :: files[name].value
  }

  class Table {
    var files: Files
    const links: Links

    constructor (files: Files, links: Links)
      ensures this.files == files && this.links == links
    {
      this.files, this.links := files, links;
    }

    /** `order` is the order in which the table of links yields its names. */
    method ResolveLinks(order: seq<string>) returns (r: Result<map<string, Entry>, Error>)
      modifies this
      ensures files == Memoise(old(files), links, order).0
      ensures r == match Memoise(old(files), links, order).1
                   case None => Ok(Regular(files))
                   case Some(error) => Err(error)
    {
      for i := 0 to |order|
        invariant Memoise(old(files), links, order) == Memoise(files, links, order[i..])
      {
        var resolved := Resolve(files, links, order[i], {});
        assert order[i..][1..] == order[i + 1..];
        if resolved.Err? {
          return Err(resolved.error);
        }
        files := files[order[i] := resolved.value];
      }
      return Ok(Regular(files));
    }
  }

  // ---- Writing -----------------------------------------------------------------------------

  datatype Member = Stored(name: string, mode: nat, body: Bytes) | Hard(name: string, mode: nat, target: string)

  type Seen = map<(Digest, nat), string>

  function Pack(files: map<string, Entry>, order: seq<string>, seen: Seen,
                digest: Bytes -> Digest): Result<seq<Member>, Error>
    requires forall k | 0 <= k < |order| :: order[k] in files
  {
    if order == [] then Ok([])
    else
      var name, entry := order[0], files[order[0]];
      var _ :- SafePath(name);
      var key := (digest(entry.body), entry.mode);
      var rest :- Pack(files, order[1..], if key in seen then seen else seen[key := name], digest);
      Ok([if key in seen then Hard(name, entry.mode, seen[key]) else Stored(name, entry.mode, entry.body)] + rest)
  }

  /** `order` holds the names in sorted order; nothing here depends on which order it is. */
  method WriteArchive(files: map<string, Entry>, order: seq<string>, digest: Bytes -> Digest)
    returns (r: Result<seq<Member>, Error>)
    requires forall k | 0 <= k < |order| :: order[k] in files
    ensures r == Pack(files, order, map[], digest)
  {
    var seen: Seen, members: seq<Member> := map[], [];
    ghost var all := Pack(files, order, map[], digest);
    assert order[0..] == order && (all.Ok? ==> members + all.value == all.value);
    for i := 0 to |order|
      invariant all == Onto(members, Pack(files, order[i..], seen, digest))
    {
      var name, entry := order[i], files[order[i]];
      PackOne(files, order, i, seen, digest, members);
      var safe := SafePath(name);
      if safe.Err? {
        return Err(safe.error);
      }
      var key := (digest(entry.body), entry.mode);
      if key in seen {
        members := members + [Hard(name, entry.mode, seen[key])];
      } else {
        seen := seen[key := name];
        members := members + [Stored(name, entry.mode, entry.body)];
      }
    }
    assert members + [] == members;
    return Ok(members);
  }

  /** The members written so far, followed by the rest. */
  function Onto(members: seq<Member>, rest: Result<seq<Member>, Error>): Result<seq<Member>, Error> {
    match rest
    case Err(error) => Err(error)
    case Ok(more) => Ok(members + more)
  }

  lemma PackOne(files: map<string, Entry>, order: seq<string>, i: nat, seen: Seen, digest: Bytes -> Digest,
                members: seq<Member>)
    requires i < |order| && forall k | 0 <= k < |order| :: order[k] in files
    ensures var name, entry := order[i], files[order[i]];
            var key := (digest(entry.body), entry.mode);
            var member := if key in seen then Hard(name, entry.mode, seen[key])
                          else Stored(name, entry.mode, entry.body);
            Onto(members, Pack(files, order[i..], seen, digest))
            == if SafePath(name).Err? then Err(SafePath(name).error)
               else Onto(members + [member],
                         Pack(files, order[i + 1..], if key in seen then seen else seen[key := name], digest))
  {
    assert order[i..][1..] == order[i + 1..];
    var packed := Pack(files, order[i..], seen, digest);
    if packed.Ok? {
      assert members + packed.value == members + [packed.value[0]] + packed.value[1..];
    }
  }

  // ---- Extraction --------------------------------------------------------------------------

  type Place = seq<string>

  /** File names and the contents they share. */
  datatype Disk = Disk(names: map<Place, nat>, inodes: seq<Entry>)

  const EMPTY_DISK := Disk(map[], [])

  predicate Linked(disk: Disk) {
    forall place | place in disk.names :: disk.names[place] < |disk.inodes|
  }

  function ReadAt(disk: Disk, place: Place): Option<Entry>
    requires Linked(disk)
  {
    if place in disk.names then Some(disk.inodes[disk.names[place]]) else None
  }

  /** No directory above `place` is taken by a file. */
  predicate Roomy(disk: Disk, place: Place) {
    forall other | other in disk.names :: !(other < place)
  }

  predicate IsDirectory(disk: Disk, place: Place) {
    place == [] || exists other | other in disk.names :: place < other
  }

  /** Writes through whatever the name leads to, then sets its mode. */
  function WriteAt(disk: Disk, place: Place, entry: Entry): Disk
    requires Linked(disk)
    ensures Linked(WriteAt(disk, place, entry))
  {
    if place in disk.names then disk.(inodes := disk.inodes[disk.names[place] := entry])
    else Disk(disk.names[place := |disk.inodes|], disk.inodes + [entry])
  }

  function ExtractOne(disk: Disk, member: Member): (r: Result<Disk, Error>)
    requires Linked(disk)
    ensures r.Ok? ==> Linked(r.value)
  {
    if Absolute(member.name) || ClimbsUp(member.name) then Err(Unsupported(member.name))
    else if !Roomy(disk, Parts(member.name)) then Err(Os)
    else
      match member
      case Hard(name, _, target) =>
        if Absolute(target) || ClimbsUp(target) then Err(Unsafe(target))
        else if Parts(name) in disk.names || IsDirectory(disk, Parts(name)) || Parts(target) !in disk.names then Err(Os)
        else Ok(disk.(names := disk.names[Parts(name) := disk.names[Parts(target)]]))
      case Stored(name, mode, body) =>
        if IsDirectory(disk, Parts(name)) then Err(Os) else Ok(WriteAt(disk, Parts(name), Entry(body, mode % 512)))
  }

  function Extract(disk: Disk, members: seq<Member>): (r: Result<Disk, Error>)
    requires Linked(disk)
    ensures r.Ok? ==> Linked(r.value)
    decreases |members|
  {
    if members == [] then Ok(disk)
    else
      var next :- ExtractOne(disk, members[0]);
      Extract(next, members[1..])
  }

  class Root {
    var names: map<Place, nat>
    var inodes: seq<Entry>

    function State(): Disk
      reads this
    {
      Disk(names, inodes)
    }

    constructor ()
      ensures State() == EMPTY_DISK
    {
      names, inodes := map[], [];
    }

    method WriteBytes(place: Place, body: Bytes, mode: nat)
      requires Linked(State())
      modifies this
      ensures State() == WriteAt(old(State()), place, Entry(body, mode % 512))
    {
      if place in names {
        inodes := inodes[names[place] := Entry(body, mode % 512)];
      } else {
        names := names[place := |inodes|];
        inodes := inodes + [Entry(body, mode % 512)];
      }
    }

    method Unpack(members: seq<Member>) returns (error: Option<Error>)
      requires Linked(State())
      modifies this
      ensures error == match Extract(old(State()), members) case Ok(_) => None case Err(e) => Some(e)
      ensures error.None? ==> Ok(State()) == Extract(old(State()), members)
    {
      for i := 0 to |members|
        invariant Linked(State())
        invariant Extract(old(State()), members) == Extract(State(), members[i..])
      {
        var member := members[i];
        assert members[i..][1..] == members[i + 1..];
        var path := Parts(member.name);
        if Absolute(member.name) || ClimbsUp(member.name) {
          return Some(Unsupported(member.name));
        }
        if !Roomy(State(), path) {
          return Some(Os);
        }
        match member {
          case Hard(_, _, target) =>
            if Absolute(target) || ClimbsUp(target) {
              return Some(Unsafe(target));
            }
            if path in names || IsDirectory(State(), path) || Parts(target) !in names {
              return Some(Os);
            }
            names := names[path := names[Parts(target)]];
          case Stored(_, mode, body) =>
            if IsDirectory(State(), path) {
              return Some(Os);
            }
            WriteBytes(path, body, mode);
        }
      }
      return None;
    }
  }
}
