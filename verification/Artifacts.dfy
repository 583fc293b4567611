/**
 Staging and publishing the artifacts of one attempt: files are written into a private directory, a manifest of their
 sizes and digests is verified against them, and one rename publishes the directory.
 */
module Artifacts {
  import opened Outcomes

  newtype byte = v: int | 0 <= v < 256
  type Bytes = seq<byte>

  /** The logical names a simulation writes, and any other. */
  datatype Name =
    | RunManifest | PreprocessingSummary | PartitionSummary | FeatureSchema | AnchorSummary | Metrics
    | Results(agent: int) | AlarmTable | Diagnostics | ArtifactManifest | Additional(text: string)

  /** The eleven artifacts every manifest has to list as required. */
  const REQUIRED: set<Name> :=
    {RunManifest, PreprocessingSummary, PartitionSummary, FeatureSchema, AnchorSummary, Metrics,
     Results(1), Results(2), Results(3), AlarmTable, Diagnostics}

  datatype Item = Item(name: Name, size: nat, digest: string, required: bool)

  type Directory = map<Name, Bytes>

  /** The rest of a manifest; whether its fields are well formed is the platform's string validation. */
  datatype Header = Header(runId: string, runMode: string, snapshot: string)

  datatype Manifest = Manifest(header: Header, items: seq<Item>)

  /** The platform's digest of a file, encoding of a manifest, validation of its header, and order of names. */
  datatype Platform = Platform(digest: Bytes -> string, encode: Manifest -> Bytes, wellFormed: Header -> bool,
                               order: Name -> int)

  /** The file the item describes is there, with its size and digest. */
  predicate Matches(p: Platform, item: Item, directory: Directory) {
    && item.name in directory
    && |directory[item.name]| == item.size
    && p.digest(directory[item.name]) == item.digest
  }

  ghost predicate AllMatch(p: Platform, items: seq<Item>, directory: Directory) {
    forall i :: 0 <= i < |items| ==> Matches(p, items[i], directory)
  }

  ghost predicate UniqueNames(items: seq<Item>) {
    forall i, j :: 0 <= i < j < |items| ==> items[i].name != items[j].name
  }

  predicate ListsRequired(items: seq<Item>, name: Name) {
    exists i :: 0 <= i < |items| && items[i].name == name && items[i].required
  }

  ghost predicate ListsAllRequired(items: seq<Item>) {
    forall name :: name in REQUIRED ==> ListsRequired(items, name)
  }

  /** What the validator accepts. */
  ghost predicate ValidManifest(p: Platform, manifest: Manifest, directory: Directory) {
    && p.wellFormed(manifest.header)
    && UniqueNames(manifest.items)
    && (forall i :: 0 <= i < |manifest.items| ==> manifest.items[i].name != ArtifactManifest)
    && ListsAllRequired(manifest.items)
    && AllMatch(p, manifest.items, directory)
  }

  /** Walks the items once for their names, then the required names, then the files. */
  method ValidateArtifactManifest(p: Platform, manifest: Manifest, directory: Directory) returns (ok: bool)
    ensures ok <==> ValidManifest(p, manifest, directory)
  {
    hide REQUIRED, Matches;
    if !p.wellFormed(manifest.header) {
      return false;
    }
    var items := manifest.items;
    var names: set<Name>, required: set<Name> := {}, {};
    for i := 0 to |items|
      invariant forall name :: name in names <==> exists k :: 0 <= k < i && items[k].name == name
      invariant forall name :: name in required <==> ListsRequired(items[..i], name)
      invariant forall j, k :: 0 <= j < k < i ==> items[j].name != items[k].name
    {
      if items[i].name in names {
        return false;
      }
      names := names + {items[i].name};
      RequiredStep(items, i);
      if items[i].required {
        required := required + {items[i].name};
      }
    }
    assert items[..|items|] == items;
    if ArtifactManifest in names || !(REQUIRED <= required) {
      assert ArtifactManifest in names || exists name :: name in REQUIRED && !ListsRequired(items, name);
      return false;
    }
    for i := 0 to |items|
      invariant forall k :: 0 <= k < i ==> Matches(p, items[k], directory)
    {
      if !Matches(p, items[i], directory) {
        return false;
      }
    }
    return true;
  }

  lemma RequiredStep(items: seq<Item>, n: nat)
    requires n < |items|
    ensures forall name ::
      ListsRequired(items[..n + 1], name) <==>
        ListsRequired(items[..n], name) || (items[n].required && items[n].name == name)
  {
    forall name ensures ListsRequired(items[..n + 1], name)
      <==> ListsRequired(items[..n], name) || (items[n].required && items[n].name == name)
    {
      if ListsRequired(items[..n], name) {
        var i :| 0 <= i < n && items[..n][i].name == name && items[..n][i].required;
        assert items[..n + 1][i] == items[..n][i];
      }
      if ListsRequired(items[..n + 1], name) {
        var i :| 0 <= i < n + 1 && items[..n + 1][i].name == name && items[..n + 1][i].required;
        assert i < n ==> items[..n][i] == items[..n + 1][i];
      }
      if items[n].required && items[n].name == name {
        assert items[..n + 1][n] == items[n];
      }
    }
  }

  // ---------------------------------------------------------------- the inventory

  type Inventory = map<Name, Item>

  /** The inventory as a list ordered by name, each item once. */
  ghost predicate IsListing(p: Platform, inventory: Inventory, items: seq<Item>) {
    && UniqueNames(items)
    && (forall i, j :: 0 <= i < j < |items| ==> p.order(items[i].name) <= p.order(items[j].name))
    && (forall i :: 0 <= i < |items| ==> items[i].name in inventory && items[i] == inventory[items[i].name])
    && (forall name :: name in inventory ==> exists i :: 0 <= i < |items| && items[i] == inventory[name])
  }

  ghost predicate KeysAreNames(inventory: Inventory) {
    forall name :: name in inventory ==> inventory[name].name == name
  }

  /** Every file in the inventory is in the directory as it was written. */
  ghost predicate Faithful(p: Platform, inventory: Inventory, directory: Directory) {
    forall name :: name in inventory ==> Matches(p, inventory[name], directory)
  }

  method LeastName(p: Platform, names: set<Name>) returns (least: Name)
    requires names != {}
    ensures least in names && forall name :: name in names ==> p.order(least) <= p.order(name)
  {
    least :| least in names;
    var remaining := names;
    while remaining != {}
      invariant least in names && remaining <= names
      invariant forall name :: name in names && name !in remaining ==> p.order(least) <= p.order(name)
    {
      var name :| name in remaining;
      if p.order(name) < p.order(least) {
        least := name;
      }
      remaining := remaining - {name};
    }
  }

  /** The part of the listing made so far: ordered, complete but for what remains, and before all of it. */
  ghost predicate IsPartial(p: Platform, inventory: Inventory, remaining: set<Name>, items: seq<Item>) {
    && remaining <= inventory.Keys
    && IsListing(p, map name | name in inventory && name !in remaining :: inventory[name], items)
    && forall i, name :: 0 <= i < |items| && name in remaining ==> p.order(items[i].name) <= p.order(name)
  }

  lemma AppendKeepsUnique(items: seq<Item>, item: Item)
    requires UniqueNames(items) && forall i :: 0 <= i < |items| ==> items[i].name != item.name
    ensures UniqueNames(items + [item])
  {
  }

  lemma AppendToListing(p: Platform, done: Inventory, items: seq<Item>, item: Item)
    requires IsListing(p, done, items) && item.name !in done
    requires forall i :: 0 <= i < |items| ==> p.order(items[i].name) <= p.order(item.name)
    ensures IsListing(p, done[item.name := item], items + [item])
  {
    var longer, more := items + [item], done[item.name := item];
    AppendKeepsUnique(items, item);
    hide UniqueNames;
    forall i | 0 <= i < |longer| ensures longer[i].name in more && longer[i] == more[longer[i].name] {
      assert i < |items| ==> longer[i] == items[i];
    }
    forall name | name in more ensures exists i :: 0 <= i < |longer| && longer[i] == more[name] {
      if name == item.name {
        assert longer[|items|] == more[name];
      } else {
        var i :| 0 <= i < |items| && items[i] == done[name];
        assert longer[i] == more[name];
      }
    }
  }

  lemma ListOne(p: Platform, inventory: Inventory, remaining: set<Name>, items: seq<Item>, name: Name)
    requires KeysAreNames(inventory) && IsPartial(p, inventory, remaining, items) && name in remaining
    requires forall other :: other in remaining ==> p.order(name) <= p.order(other)
    ensures IsPartial(p, inventory, remaining - {name}, items + [inventory[name]])
  {
    hide IsListing;
    var done := map other | other in inventory && other !in remaining :: inventory[other];
    var more := map other | other in inventory && other !in remaining - {name} :: inventory[other];
    AppendToListing(p, done, items, inventory[name]);
    assert more == done[name := inventory[name]];
  }

  method Listing(p: Platform, inventory: Inventory) returns (items: seq<Item>)
    requires KeysAreNames(inventory)
    ensures IsListing(p, inventory, items)
  {
    items := [];
    var remaining := inventory.Keys;
    while remaining != {}
      invariant IsPartial(p, inventory, remaining, items)
    {
      hide KeysAreNames, IsListing;
      var name := LeastName(p, remaining);
      ListOne(p, inventory, remaining, items, name);
      items := items + [inventory[name]];
      remaining := remaining - {name};
    }
    assert (map name | name in inventory && name !in remaining :: inventory[name]) == inventory;
  }

  ghost predicate HasAllRequired(inventory: Inventory) {
    forall name :: name in REQUIRED ==> name in inventory && inventory[name].required
  }

  /**
   The manifest of a faithful inventory is valid exactly when the header is, and everything required was written as
   such.
   */
  lemma ListingIsValidExactlyWhen(p: Platform, inventory: Inventory, header: Header, items: seq<Item>,
                                  directory: Directory)
    requires KeysAreNames(inventory) && Faithful(p, inventory, directory) && IsListing(p, inventory, items)
    ensures ValidManifest(p, Manifest(header, items), directory)
      <==> p.wellFormed(header) && ArtifactManifest !in inventory && HasAllRequired(inventory)
  {
    hide REQUIRED, Matches;
    if HasAllRequired(inventory) {
      forall name | name in REQUIRED ensures ListsRequired(items, name) {
        var i :| 0 <= i < |items| && items[i] == inventory[name];
      }
    }
    if ListsAllRequired(items) {
      forall name | name in REQUIRED ensures name in inventory && inventory[name].required {
        assert ListsRequired(items, name);
      }
    }
  }

  // ---------------------------------------------------------------- the file system and the writer

  /** Directories by path; the paths a task names are already resolved. */
  class FileSystem {
    var directories: map<string, Directory>

    constructor ()
      ensures directories == map[]
    {
      directories := map[];
    }
  }

  /** A directory published together with the manifest it was verified against. */
  datatype Publication = Publication(manifest: Manifest, directory: Directory)

  /**
   Every item of the manifest is in the directory as listed, the eleven required ones among them, and the manifest
   too.
   */
  ghost predicate IsPublication(p: Platform, publication: Publication) {
    && ValidManifest(p, publication.manifest, publication.directory)
    && ArtifactManifest in publication.directory
    && publication.directory[ArtifactManifest] == p.encode(publication.manifest)
  }

  /** Only the staged directory differs. */
  ghost predicate OthersUntouched(before: map<string, Directory>, after: map<string, Directory>, staged: string) {
    after - {staged} == before - {staged}
  }

  /**
   How the file operations of one write end: well, before the file is in its place, or after it, when changing its
   mode or reading it back fails.
   */
  datatype Placement = Placed | Unplaced | Misplaced

  class AtomicArtifactWriter {
    const p: Platform
    const files: FileSystem
    const staged: string
    const committed: string
    var items: Inventory
    var manifest: Option<Manifest>
    var closed: bool

    /** While open there is a staged directory, and the manifest file in it is the manifest's. */
    ghost predicate Valid()
      reads this, files
    {
      && staged != committed
      && KeysAreNames(items)
      && (!closed ==>
            && staged in files.directories
            && (manifest.Some? ==>
                  && ArtifactManifest in items
                  && ArtifactManifest in files.directories[staged]
                  && files.directories[staged][ArtifactManifest] == p.encode(manifest.value)))
    }

    /** The staged directory holds what the inventory says. */
    ghost predicate IsFaithful()
      reads this, files
    {
      staged in files.directories && Faithful(p, items, files.directories[staged])
    }

    constructor (p: Platform, files: FileSystem, staged: string, committed: string)
      requires staged !in files.directories && staged != committed
      modifies files
      ensures Valid() && IsFaithful() && !closed && items == map[] && manifest.None?
      ensures this.p == p && this.files == files && this.staged == staged && this.committed == committed
      ensures files.directories == old(files.directories)[staged := map[]]
    {
      this.p, this.files, this.staged, this.committed := p, files, staged, committed;
      items, manifest, closed := map[], None, false;
      new;
      files.directories := files.directories[staged := map[]];
    }

    /** Writes aside and renames into place; an inventory entry is made only once the file has been read back. */
    method WriteBytes(name: Name, data: Bytes, required: bool, placement: Placement) returns (r: Result<Item>)
      requires Valid() && (manifest.Some? ==> name != ArtifactManifest)
      modifies this`items, files
      ensures Valid()
      ensures r.Ok? <==> !closed && placement.Placed?
      ensures r.Ok? ==> r.value == Item(name, |data|, p.digest(data), required) && items == old(items)[name := r.value]
      ensures r.Failed? ==> items == old(items)
      ensures closed || placement.Unplaced? ==> files.directories == old(files.directories)
      ensures !closed && !placement.Unplaced? ==>
        files.directories == old(files.directories)[staged := old(files.directories[staged])[name := data]]
      ensures old(IsFaithful()) && !placement.Misplaced? ==> IsFaithful()
    {
      if closed || placement.Unplaced? {
        return Failed("ARTIFACT_WRITE_FAILED");
      }
      files.directories := files.directories[staged := files.directories[staged][name := data]];
      if placement.Misplaced? {
        return Failed("ARTIFACT_WRITE_FAILED");
      }
      var item := Item(name, |data|, p.digest(data), required);
      items := items[name := item];
      return Ok(item);
    }

    /** The manifest lists everything written so far but itself; it is verified before it is written. */
    method BuildManifest(header: Header, placement: Placement) returns (r: Result<Manifest>)
      requires Valid() && IsFaithful() && !closed && manifest.None?
      modifies this`items, this`manifest, files
      ensures Valid()
      ensures r.Ok? <==>
        placement.Placed? && p.wellFormed(header) && ArtifactManifest !in old(items) && HasAllRequired(old(items))
      ensures r.Failed? ==>
        && items == old(items) && manifest == old(manifest) && staged in files.directories
        && OthersUntouched(old(files.directories), files.directories, staged)
      ensures r.Ok? ==>
        && manifest == Some(r.value) && r.value.header == header && IsListing(p, old(items), r.value.items)
        && items.Keys == old(items).Keys + {ArtifactManifest}
        && (forall name :: name in old(items) ==> items[name] == old(items)[name])
        && files.directories
           == old(files.directories)[staged := old(files.directories[staged])[ArtifactManifest := p.encode(r.value)]]
    {
      hide REQUIRED, ValidManifest, IsListing, HasAllRequired, Matches;
      if ArtifactManifest in items {
        return Failed("ARTIFACT_WRITE_FAILED");
      }
      var listed := Listing(p, items);
      var payload := Manifest(header, listed);
      var ok := ValidateArtifactManifest(p, payload, files.directories[staged]);
      ListingIsValidExactlyWhen(p, items, header, listed, files.directories[staged]);
      if !ok {
        return Failed("ARTIFACT_WRITE_FAILED");
      }
      var written := WriteBytes(ArtifactManifest, p.encode(payload), true, placement);
      if written.Failed? {
        return Failed(written.code);
      }
      manifest := Some(payload);
      return Ok(payload);
    }

    /** One rename: either nothing changes, or the verified directory moves, whole, to its committed place. */
    method Commit(renames: bool) returns (r: Result<seq<Item>>)
      requires Valid()
      modifies this`closed, files
      ensures Valid()
      ensures r.Ok? ==>
        && renames && !old(closed) && closed && manifest.Some? && committed !in old(files.directories)
        && IsPublication(p, Publication(manifest.value, old(files.directories[staged])))
        && files.directories == old(files.directories)[committed := old(files.directories[staged])] - {staged}
        && IsListing(p, items, r.value)
      ensures r.Failed? ==> closed == old(closed) && files.directories == old(files.directories)
      ensures r.Failed? ==>
        || !renames || old(closed) || manifest.None? || committed in old(files.directories)
        || !ValidManifest(p, manifest.value, old(files.directories[staged]))
    {
      hide REQUIRED, ValidManifest, IsListing;
      if closed || ArtifactManifest !in items || manifest.None? || committed in files.directories {
        return Failed("ARTIFACT_WRITE_FAILED");
      }
      var ok := ValidateArtifactManifest(p, manifest.value, files.directories[staged]);
      if !ok || !renames {
        return Failed("ARTIFACT_WRITE_FAILED");
      }
      var listed := Listing(p, items);
      files.directories := files.directories[committed := files.directories[staged]] - {staged};
      closed := true;
      return Ok(listed);
    }

    /**
     Removes the staged directory unless it has been published. A removal that fails keeps some of the files and
     leaves the writer open.
     */
    method Abandon(removes: bool, kept: set<Name>) returns (ok: bool)
      requires staged != committed && KeysAreNames(items)
      modifies this`closed, files
      ensures ok <==> old(closed) || removes || staged !in old(files.directories)
      ensures ok ==> Valid() && closed
      ensures OthersUntouched(old(files.directories), files.directories, staged)
      ensures ok ==>
        files.directories == if old(closed) then old(files.directories) else old(files.directories) - {staged}
      ensures !ok ==> closed == old(closed) && staged in files.directories
    {
      if closed {
        return true;
      }
      if staged in files.directories {
        if !removes {
          var rest := map name | name in files.directories[staged] && name in kept :: files.directories[staged][name];
          files.directories := files.directories[staged := rest];
          return false;
        }
        files.directories := files.directories - {staged};
      }
      closed := true;
      return true;
    }
  }

  // ---------------------------------------------------------------- the artifacts of a simulation

  /** The names in the order they are written, for the agents of the outcome. */
  function SimulationNames(agents: seq<int>): seq<Name> {
    [RunManifest, PreprocessingSummary, PartitionSummary, FeatureSchema, AnchorSummary, Metrics]
    + ResultNames(agents) + [AlarmTable, Diagnostics]
  }

  function ResultNames(agents: seq<int>): seq<Name> {
    seq(|agents|, i requires 0 <= i < |agents| => Results(agents[i]))
  }

  lemma SimulationNamesAre(agents: seq<int>)
    ensures ArtifactManifest !in SimulationNames(agents)
    ensures REQUIRED <= (set name | name in SimulationNames(agents)) <==> {1, 2, 3} <= (set agent | agent in agents)
  {
    var names := SimulationNames(agents);
    assert forall agent :: Results(agent) in names <==> agent in agents by {
      forall agent ensures Results(agent) in ResultNames(agents) <==> agent in agents {
        if agent in agents {
          var i :| 0 <= i < |agents| && agents[i] == agent;
          assert ResultNames(agents)[i] == Results(agent);
        }
      }
    }
    assert forall agent :: agent in {1, 2, 3} ==> Results(agent) in REQUIRED;
    if {1, 2, 3} <= (set agent | agent in agents) {
      assert 1 in agents && 2 in agents && 3 in agents;
      var fixed := [RunManifest, PreprocessingSummary, PartitionSummary, FeatureSchema, AnchorSummary, Metrics];
      assert forall name :: name in fixed || name in [AlarmTable, Diagnostics] ==> name in names;
      assert fixed[0] in names && fixed[1] in names && fixed[2] in names && fixed[3] in names && fixed[4] in names
        && fixed[5] in names;
      assert [AlarmTable, Diagnostics][0] in names && [AlarmTable, Diagnostics][1] in names;
    }
  }

  /** How the inventory vouches for a file. */
  function ItemOf(p: Platform, name: Name, contents: Name -> Bytes): Item {
    Item(name, |contents(name)|, p.digest(contents(name)), true)
  }

  /** The inventory and the directory hold the named files with their contents, and nothing else. */
  ghost predicate AreWritten(p: Platform, inventory: Inventory, directory: Directory, names: seq<Name>,
                             contents: Name -> Bytes) {
    && inventory.Keys == directory.Keys == (set name | name in names)
    && (forall name :: name in names ==> inventory[name] == ItemOf(p, name, contents))
    && (forall name :: name in names ==> directory[name] == contents(name))
  }

  lemma OthersStay(before: map<string, Directory>, now: map<string, Directory>, staged: string, directory: Directory)
    ensures OthersUntouched(before, before, staged)
    ensures OthersUntouched(before, now, staged) ==> OthersUntouched(before, now[staged := directory], staged)
  {
    assert now[staged := directory] - {staged} == now - {staged};
  }

  lemma NothingWritten(p: Platform, contents: Name -> Bytes)
    ensures AreWritten(p, map[], map[], [], contents)
  {
  }

  lemma OneMoreWritten(p: Platform, inventory: Inventory, directory: Directory, names: seq<Name>, n: nat,
                       contents: Name -> Bytes)
    requires n < |names| && AreWritten(p, inventory, directory, names[..n], contents)
    ensures AreWritten(p, inventory[names[n] := ItemOf(p, names[n], contents)],
                       directory[names[n] := contents(names[n])], names[..n + 1], contents)
  {
    assert names[..n + 1] == names[..n] + [names[n]];
  }

  /** Writes every file in turn, until one fails. */
  method WriteAll(writer: AtomicArtifactWriter, names: seq<Name>, contents: Name -> Bytes, write: int -> Placement)
    returns (ok: bool)
    requires writer.Valid() && writer.IsFaithful() && !writer.closed && writer.manifest.None? && writer.items == map[]
    requires writer.files.directories[writer.staged] == map[]
    modifies writer`items, writer.files
    ensures writer.Valid() && writer.staged in writer.files.directories
    ensures ok <==> forall k :: 0 <= k < |names| ==> write(k).Placed?
    ensures ok ==> writer.IsFaithful()
    ensures ok ==> AreWritten(writer.p, writer.items, writer.files.directories[writer.staged], names, contents)
    ensures OthersUntouched(old(writer.files.directories), writer.files.directories, writer.staged)
  {
    NothingWritten(writer.p, contents);
    OthersStay(writer.files.directories, writer.files.directories, writer.staged, map[]);
    hide KeysAreNames, Faithful, AreWritten, OthersUntouched;
    assert names[..0] == [];
    for i := 0 to |names|
      invariant writer.Valid() && writer.IsFaithful() && !writer.closed && writer.manifest.None?
      invariant forall k :: 0 <= k < i ==> write(k).Placed?
      invariant AreWritten(writer.p, writer.items, writer.files.directories[writer.staged], names[..i], contents)
      invariant OthersUntouched(old(writer.files.directories), writer.files.directories, writer.staged)
    {
      OneMoreWritten(writer.p, writer.items, writer.files.directories[writer.staged], names, i, contents);
      OthersStay(old(writer.files.directories), writer.files.directories, writer.staged,
                 writer.files.directories[writer.staged][names[i] := contents(names[i])]);
      var written := writer.WriteBytes(names[i], contents(names[i]), true, write(i));
      if written.Failed? {
        return false;
      }
    }
    assert names[..|names|] == names;
    return true;
  }

  /** Manifest and rename; the file operations may fail. */
  method Publish(writer: AtomicArtifactWriter, header: Header, placement: Placement, renames: bool)
    returns (r: Result<Publication>)
    requires writer.Valid() && writer.IsFaithful() && !writer.closed && writer.manifest.None?
    requires ArtifactManifest !in writer.items
    modifies writer`items, writer`manifest, writer`closed, writer.files
    ensures writer.Valid()
    ensures r.Ok? <==>
      && writer.p.wellFormed(header) && HasAllRequired(old(writer.items))
      && placement.Placed? && renames && writer.committed !in old(writer.files.directories)
    ensures r.Ok? ==>
      && writer.closed && IsPublication(writer.p, r.value) && r.value.manifest.header == header
      && IsListing(writer.p, old(writer.items), r.value.manifest.items)
      && r.value.directory
         == old(writer.files.directories[writer.staged])[ArtifactManifest := writer.p.encode(r.value.manifest)]
      && writer.files.directories
         == old(writer.files.directories)[writer.committed := r.value.directory] - {writer.staged}
    ensures r.Failed? ==>
      && !writer.closed && writer.staged in writer.files.directories
      && OthersUntouched(old(writer.files.directories), writer.files.directories, writer.staged)
  {
    hide REQUIRED, IsPublication, KeysAreNames, HasAllRequired, IsListing, ValidManifest, Faithful;
    ghost var inventory, staged := writer.items, writer.files.directories[writer.staged];
    var manifest := writer.BuildManifest(header, placement);
    if manifest.Failed? {
      return Failed(manifest.code);
    }
    StillValid(writer.p, inventory, header, manifest.value.items, staged, writer.p.encode(manifest.value));
    var publication := Publication(manifest.value, writer.files.directories[writer.staged]);
    var items := writer.Commit(renames);
    if items.Failed? {
      return Failed(items.code);
    }
    return Ok(publication);
  }

  /** Writing the manifest file next to the files it lists does not invalidate it. */
  lemma StillValid(p: Platform, inventory: Inventory, header: Header, items: seq<Item>, directory: Directory,
                   encoded: Bytes)
    requires KeysAreNames(inventory) && Faithful(p, inventory, directory) && IsListing(p, inventory, items)
    requires p.wellFormed(header) && ArtifactManifest !in inventory && HasAllRequired(inventory)
    ensures ValidManifest(p, Manifest(header, items), directory[ArtifactManifest := encoded])
  {
    hide IsListing, ValidManifest, HasAllRequired;
    assert Faithful(p, inventory, directory[ArtifactManifest := encoded]);
    ListingIsValidExactlyWhen(p, inventory, header, items, directory[ArtifactManifest := encoded]);
  }

  /**
   How the platform's file operations end: creating the attempt directory and setting its mode, each write, the
   rename, and the removal, which keeps some of the files when it fails.
   */
  datatype Verdicts = Verdicts(creates: bool, setsMode: bool, write: int -> Placement, renames: bool, removes: bool,
                               kept: set<Name>)

  /**
   Writes everything, builds the manifest and commits; on a failure the staged directory is removed. An attempt
   directory that cannot be created, or whose mode cannot be set, fails before there is a writer to abandon.
   */
  method WriteSimulationArtifacts(p: Platform, files: FileSystem, staged: string, committed: string, header: Header,
                                  agents: seq<int>, contents: Name -> Bytes, v: Verdicts)
    returns (r: Result<Publication>)
    requires staged != committed
    modifies files
    ensures r.Ok? ==>
      && IsPublication(p, r.value) && r.value.manifest.header == header
      && files.directories == old(files.directories)[committed := r.value.directory]
      && r.value.directory.Keys == (set name | name in SimulationNames(agents)) + {ArtifactManifest}
      && (forall name :: name in SimulationNames(agents) ==> r.value.directory[name] == contents(name))
      && r.value.directory[ArtifactManifest] == p.encode(r.value.manifest)
      && (forall name :: name in SimulationNames(agents) ==> ItemOf(p, name, contents) in r.value.manifest.items)
    ensures r.Failed? ==> OthersUntouched(old(files.directories), files.directories, staged)
    ensures r.Failed? ==>
      (files.directories == old(files.directories) <==> LeavesNothing(old(files.directories), staged, v))
    ensures r.Ok? <==> Publishable(p, old(files.directories), staged, committed, header, agents, v)
  {
    hide REQUIRED, IsPublication, SimulationNames, Faithful, KeysAreNames, HasAllRequired, IsListing, AllWrites;
    if staged in files.directories || !v.creates {
      return Failed("OS_ERROR");
    }
    if !v.setsMode {
      files.directories := files.directories[staged := map[]];
      return Failed("OS_ERROR");
    }
    var writer := new AtomicArtifactWriter(p, files, staged, committed);
    var names := SimulationNames(agents);
    SimulationNamesAre(agents);
    var written := WriteAll(writer, names, contents, v.write);
    WritesSplit(agents, v.write);
    if written {
      AllRequiredWritten(agents, writer.items);
      ghost var before, inventory := files.directories, writer.items;
      OnlyOneMoved(old(files.directories), before, staged, committed, map[]);
      r := Publish(writer, header, v.write(|names|), v.renames);
      if r.Ok? {
        ListedAll(p, names, contents, inventory, before[staged], r.value.manifest.items);
        OnlyOneMoved(old(files.directories), before, staged, committed, r.value.directory);
        return;
      }
    } else {
      r := Failed("ARTIFACT_WRITE_FAILED");
    }
    var removed := writer.Abandon(v.removes, v.kept);
    if !removed {
      r := Failed("OS_ERROR");
    }
  }

  lemma ListedAll(p: Platform, names: seq<Name>, contents: Name -> Bytes, inventory: Inventory, directory: Directory,
                  items: seq<Item>)
    requires IsListing(p, inventory, items) && AreWritten(p, inventory, directory, names, contents)
    ensures forall name :: name in names ==> ItemOf(p, name, contents) in items
  {
    forall name | name in names ensures ItemOf(p, name, contents) in items {
      assert name in inventory;
    }
  }

  /** Nothing has been created, or what has been created is removed again. */
  predicate LeavesNothing(directories: map<string, Directory>, staged: string, v: Verdicts) {
    staged in directories || !v.creates || (v.setsMode && v.removes)
  }

  lemma WritesSplit(agents: seq<int>, write: int -> Placement)
    ensures var n := |SimulationNames(agents)|;
      AllWrites(agents, write) <==> (forall k :: 0 <= k < n ==> write(k).Placed?) && write(n).Placed?
  {
    hide SimulationNames;
  }

  /** Staging touches nothing else, so the rename adds exactly one directory to what was there before. */
  lemma OnlyOneMoved(initial: map<string, Directory>, before: map<string, Directory>, staged: string,
                     committed: string, directory: Directory)
    requires staged !in initial && staged != committed && OthersUntouched(initial[staged := map[]], before, staged)
    ensures committed in before <==> committed in initial
    ensures before[committed := directory] - {staged} == initial[committed := directory]
  {
    assert before - {staged} == initial[staged := map[]] - {staged} == initial;
    assert committed in before <==> committed in before - {staged};
    assert before[committed := directory] - {staged} == (before - {staged})[committed := directory];
  }

  /** All the files and the manifest are placed. */
  ghost predicate AllWrites(agents: seq<int>, write: int -> Placement) {
    forall k :: 0 <= k < |SimulationNames(agents)| + 1 ==> write(k).Placed?
  }

  /**
   When the publication succeeds: a fresh attempt, nothing committed, a well-formed header, three agents, no failure.
   */
  ghost predicate Publishable(p: Platform, directories: map<string, Directory>, staged: string, committed: string,
                              header: Header, agents: seq<int>, v: Verdicts) {
    && staged !in directories && committed !in directories
    && p.wellFormed(header)
    && {1, 2, 3} <= (set agent | agent in agents)
    && v.creates && v.setsMode && v.renames && AllWrites(agents, v.write)
  }

  lemma AllRequiredWritten(agents: seq<int>, inventory: Inventory)
    requires inventory.Keys == set name | name in SimulationNames(agents)
    requires forall name :: name in inventory ==> inventory[name].required
    ensures HasAllRequired(inventory) <==> {1, 2, 3} <= (set agent | agent in agents)
  {
    SimulationNamesAre(agents);
    hide REQUIRED, SimulationNames;
  }
}
