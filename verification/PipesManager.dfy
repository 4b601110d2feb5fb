/** The tables of the flow pipes manager and what ties them together. */
module PipesWorld {
  import opened HashTable
  import Fnv

  type Id = Key
  type Port = Key
  type Ptr = Fnv.Ptr
  type Handle = int

  datatype PipeInfo = PipeInfo(pipe: Ptr, entriesTable: Handle, pipesTable: Handle)

  type Lists = map<Handle, Table<()>>
  type EntryTables = map<Handle, Table<Ptr>>

  /**
   The memory of the manager. `lists` (one table of pipe ids per port) and `entryTables` (one table of entries
   per pipe) hold the tables that are allocated, by address; a handle that is not a key there is dangling. The
   data of `entries` is a pointer: the number of a key slot of `pipes`. The last two maps are not part of the
   program: they say for which pipe an entries table, and for which port a list, was allocated.
   */
  datatype World = World(
    pipes: Table<PipeInfo>,
    entries: Table<Slot>,
    ports: Table<Handle>,
    lists: Lists,
    entryTables: EntryTables,
    pipeOwning: map<Handle, Id>,
    portOwning: map<Handle, Port>)

  ghost predicate AllValid<V>(tables: map<Handle, Table<V>>) {
    forall h :: h in tables ==> tables[h].Valid()
  }

  ghost predicate TablesValid(w: World) {
    w.pipes.Valid() && w.entries.Valid() && w.ports.Valid() && AllValid(w.lists) && AllValid(w.entryTables)
  }

  /** Every live pipe owns one entries table, no two share one, and no other is allocated. */
  ghost predicate EntryTablesOwned(pipes: map<Id, PipeInfo>, live: set<Handle>, owning: map<Handle, Id>) {
    && owning.Keys == live
    && (forall p :: p in pipes ==> pipes[p].entriesTable in owning && owning[pipes[p].entriesTable] == p)
    && (forall h :: h in owning ==> owning[h] in pipes && pipes[owning[h]].entriesTable == h)
  }

  /** Every known port owns one list, no two share one, and no other is allocated. */
  ghost predicate ListsOwned(ports: map<Port, Handle>, live: set<Handle>, owning: map<Handle, Port>) {
    && owning.Keys == live
    && (forall o :: o in ports ==> ports[o] in owning && owning[ports[o]] == o)
    && (forall h :: h in owning ==> owning[h] in ports && ports[owning[h]] == h)
  }

  /** Pipe `p` is on the list at address `h`. */
  ghost predicate Listed(lists: Lists, h: Handle, p: Id) {
    h in lists && p in lists[h].data
  }

  /** A live pipe is on exactly one port's list: the one its info points at. */
  ghost predicate PipesListed(pipes: map<Id, PipeInfo>, lists: Lists) {
    && (forall p :: p in pipes ==> Listed(lists, pipes[p].pipesTable, p))
    && (forall h, p :: Listed(lists, h, p) ==> p in pipes && pipes[p].pipesTable == h)
  }

  /** The key slot stored for entry `e` holds the id of a live pipe whose own table has the entry. */
  ghost predicate EntryLinked(pipes: Table<PipeInfo>, slot: Slot, entryTables: EntryTables, e: Id) {
    && slot in pipes.keyStore
    && var p := pipes.keyStore[slot];
    && p in pipes.pos && pipes.pos[p] == slot && Holds(pipes.data, entryTables, p, e)
  }

  /** Pipe `p` is live and its own table holds entry `e`. */
  ghost predicate Holds(pipes: map<Id, PipeInfo>, entryTables: EntryTables, p: Id, e: Id) {
    p in pipes && pipes[p].entriesTable in entryTables && e in entryTables[pipes[p].entriesTable].data
  }

  /** An entry id leads to pipe p exactly when p is live and its table holds that entry. */
  ghost predicate EntriesLinked(pipes: Table<PipeInfo>, entries: map<Id, Slot>, entryTables: EntryTables) {
    && (forall e :: e in entries ==> EntryLinked(pipes, entries[e], entryTables, e))
    && (forall p, e :: Holds(pipes.data, entryTables, p, e) ==>
          e in entries && p in pipes.pos && entries[e] == pipes.pos[p])
  }

  ghost predicate Consistent(w: World) {
    && TablesValid(w)
    && EntryTablesOwned(w.pipes.data, w.entryTables.Keys, w.pipeOwning)
    && ListsOwned(w.ports.data, w.lists.Keys, w.portOwning)
    && PipesListed(w.pipes.data, w.lists)
    && EntriesLinked(w.pipes, w.entries.data, w.entryTables)
  }

  lemma PipesHavePorts(w: World)
    requires Consistent(w)
    ensures forall p :: p in w.pipes.data ==>
      && w.pipes.data[p].pipesTable in w.lists && w.pipes.data[p].pipesTable in w.portOwning
      && p in w.lists[w.pipes.data[p].pipesTable].data
  {
    forall p | p in w.pipes.data ensures w.pipes.data[p].pipesTable in w.lists {
      assert Listed(w.lists, w.pipes.data[p].pipesTable, p);
    }
  }

  // ---------------------------------------------------------------- the flat specification

  datatype PipeRecord = PipeRecord(pipe: Ptr, port: Port)
  datatype EntryRecord = EntryRecord(pipeId: Id, entry: Ptr)

  /** What a caller can observe: two plain maps and the set of ports that have a list. */
  datatype Flat = Flat(pipes: map<Id, PipeRecord>, entries: map<Id, EntryRecord>, ports: set<Port>)

  ghost function EntryRecordOf(pipes: Table<PipeInfo>, slot: Slot, entryTables: EntryTables, e: Id): EntryRecord
    requires EntryLinked(pipes, slot, entryTables, e)
  {
    var p := pipes.keyStore[slot];
    EntryRecord(p, entryTables[pipes.data[p].entriesTable].data[e])
  }

  ghost function AbstractPipes(pipes: map<Id, PipeInfo>, owning: map<Handle, Port>): map<Id, PipeRecord>
    requires forall p :: p in pipes ==> pipes[p].pipesTable in owning
  {
    map p | p in pipes :: PipeRecord(pipes[p].pipe, owning[pipes[p].pipesTable])
  }

  ghost function AbstractEntries(pipes: Table<PipeInfo>, entries: map<Id, Slot>, entryTables: EntryTables)
    : map<Id, EntryRecord>
    requires forall e :: e in entries ==> EntryLinked(pipes, entries[e], entryTables, e)
  {
    map e | e in entries :: EntryRecordOf(pipes, entries[e], entryTables, e)
  }

  ghost function Abstract(w: World): Flat
    requires Consistent(w)
  {
    PipesHavePorts(w);
    Flat(AbstractPipes(w.pipes.data, w.portOwning),
         AbstractEntries(w.pipes, w.entries.data, w.entryTables),
         w.ports.data.Keys)
  }

  function CreatePipe(f: Flat, id: Id, pipe: Ptr, port: Port): Flat {
    Flat(f.pipes[id := PipeRecord(pipe, port)], f.entries, f.ports + {port})
  }

  function AddEntry(f: Flat, id: Id, pipeId: Id, entry: Ptr): Flat {
    f.(entries := f.entries[id := EntryRecord(pipeId, entry)])
  }

  function RemoveEntry(f: Flat, id: Id): Flat {
    f.(entries := f.entries - {id})
  }

  function EntriesIn(entries: map<Id, EntryRecord>, ids: set<Id>): set<Id> {
    set e | e in entries && entries[e].pipeId in ids
  }

  function PipesOn(pipes: map<Id, PipeRecord>, port: Port): set<Id> {
    set p | p in pipes && pipes[p].port == port
  }

  function DestroyPipes(f: Flat, ids: set<Id>): Flat {
    f.(pipes := f.pipes - ids, entries := f.entries - EntriesIn(f.entries, ids))
  }

  lemma DestroyNothing(f: Flat)
    ensures DestroyPipes(f, {}) == f
  {
    assert EntriesIn(f.entries, {}) == {};
    assert f.pipes - {} == f.pipes && f.entries - {} == f.entries;
  }

  lemma DestroyOneMore(f: Flat, ids: set<Id>, id: Id)
    ensures DestroyPipes(DestroyPipes(f, ids), {id}) == DestroyPipes(f, ids + {id})
  {
    var a, b := DestroyPipes(DestroyPipes(f, ids), {id}), DestroyPipes(f, ids + {id});
    assert a.pipes == b.pipes;
    assert a.entries == b.entries;
  }

  function FlushPort(f: Flat, port: Port): Flat {
    DestroyPipes(f, PipesOn(f.pipes, port)).(ports := f.ports - {port})
  }

  // ---------------------------------------------------------------- updates of one part of the memory

  lemma AbstractEntriesIs(pipes: Table<PipeInfo>, entries: map<Id, Slot>, entryTables: EntryTables,
                          m: map<Id, EntryRecord>)
    requires m.Keys == entries.Keys
    requires forall e :: e in entries ==> EntryLinked(pipes, entries[e], entryTables, e)
    requires forall e :: e in entries ==> m[e] == EntryRecordOf(pipes, entries[e], entryTables, e)
    ensures AbstractEntries(pipes, entries, entryTables) == m
  {}

  lemma AllValidAfterUpdate<V>(tables: map<Handle, Table<V>>, h: Handle, t: Table<V>)
    requires AllValid(tables) && t.Valid()
    ensures AllValid(tables[h := t])
    ensures tables[h := t].Keys == tables.Keys + {h}
  {}

  lemma OwnersAfterPort(ports: map<Port, Handle>, live: set<Handle>, owning: map<Handle, Port>, port: Port, h: Handle)
    requires ListsOwned(ports, live, owning) && port !in ports && h !in live
    ensures ListsOwned(ports[port := h], live + {h}, owning[h := port])
  {}

  lemma OwnersWithoutPort(ports: map<Port, Handle>, live: set<Handle>, owning: map<Handle, Port>, port: Port)
    requires ListsOwned(ports, live, owning) && port in ports
    ensures ListsOwned(ports - {port}, live - {ports[port]}, owning - {ports[port]})
  {}

  lemma OwnersAfterCreate(pipes: map<Id, PipeInfo>, live: set<Handle>, owning: map<Handle, Id>, id: Id, info: PipeInfo)
    requires EntryTablesOwned(pipes, live, owning) && id !in pipes && info.entriesTable !in live
    ensures EntryTablesOwned(pipes[id := info], live + {info.entriesTable}, owning[info.entriesTable := id])
  {}

  lemma OwnersAfterDestroy(pipes: map<Id, PipeInfo>, live: set<Handle>, owning: map<Handle, Id>, id: Id)
    requires EntryTablesOwned(pipes, live, owning) && id in pipes
    ensures EntryTablesOwned(pipes - {id}, live - {pipes[id].entriesTable}, owning - {pipes[id].entriesTable})
  {}

  lemma AbstractPipesFrame(pipes: map<Id, PipeInfo>, a: map<Handle, Port>, b: map<Handle, Port>)
    requires forall p :: p in pipes ==>
      pipes[p].pipesTable in a && pipes[p].pipesTable in b && a[pipes[p].pipesTable] == b[pipes[p].pipesTable]
    ensures AbstractPipes(pipes, a) == AbstractPipes(pipes, b)
  {
    forall p | p in pipes ensures AbstractPipes(pipes, a)[p] == AbstractPipes(pipes, b)[p] {}
  }

  lemma ListsAfterPort(pipes: map<Id, PipeInfo>, lists: Lists, h: Handle, list: Table<()>)
    requires PipesListed(pipes, lists) && h !in lists && list.data == map[]
    ensures PipesListed(pipes, lists[h := list])
  {
    forall p | p in pipes ensures Listed(lists[h := list], pipes[p].pipesTable, p) {
      assert Listed(lists, pipes[p].pipesTable, p);
    }
    var lists' := lists[h := list];
    forall k, p | Listed(lists', k, p) ensures p in pipes && pipes[p].pipesTable == k {
      assert Listed(lists, k, p);
    }
  }

  lemma ListsWithoutPort(pipes: map<Id, PipeInfo>, lists: Lists, h: Handle)
    requires PipesListed(pipes, lists) && h in lists && lists[h].data == map[]
    ensures PipesListed(pipes, lists - {h})
    ensures forall p :: p in pipes ==> pipes[p].pipesTable != h
  {
    forall p | p in pipes ensures Listed(lists - {h}, pipes[p].pipesTable, p) {
      assert Listed(lists, pipes[p].pipesTable, p);
    }
    forall k, p | Listed(lists - {h}, k, p) ensures p in pipes && pipes[p].pipesTable == k {
      assert Listed(lists, k, p);
    }
  }

  lemma ListsAfterCreate(pipes: map<Id, PipeInfo>, lists: Lists, id: Id, info: PipeInfo, list: Table<()>)
    requires PipesListed(pipes, lists) && id !in pipes
    requires info.pipesTable in lists && list.data == lists[info.pipesTable].data[id := ()]
    ensures PipesListed(pipes[id := info], lists[info.pipesTable := list])
  {
    var lists' := lists[info.pipesTable := list];
    forall p | p in pipes ensures Listed(lists', pipes[p].pipesTable, p) {
      assert Listed(lists, pipes[p].pipesTable, p);
    }
    forall h, p | Listed(lists', h, p) && p != id ensures Listed(lists, h, p) {}
    forall h | Listed(lists', h, id) ensures h == info.pipesTable {
      assert !Listed(lists, h, id);
    }
  }

  lemma ListsAfterDestroy(pipes: map<Id, PipeInfo>, lists: Lists, id: Id, list: Table<()>)
    requires PipesListed(pipes, lists) && id in pipes && pipes[id].pipesTable in lists
    requires list.data == lists[pipes[id].pipesTable].data - {id}
    ensures PipesListed(pipes - {id}, lists[pipes[id].pipesTable := list])
  {
    var lists' := lists[pipes[id].pipesTable := list];
    forall p | p in pipes && p != id ensures Listed(lists', pipes[p].pipesTable, p) {
      assert Listed(lists, pipes[p].pipesTable, p);
    }
    forall h, p | Listed(lists', h, p) ensures p in pipes - {id} && pipes[p].pipesTable == h {
      assert Listed(lists, h, p);
    }
  }

  lemma AbstractPipesAfterCreate(pipes: map<Id, PipeInfo>, owning: map<Handle, Port>, id: Id, info: PipeInfo)
    requires forall p :: p in pipes ==> pipes[p].pipesTable in owning
    requires info.pipesTable in owning
    ensures AbstractPipes(pipes[id := info], owning)
         == AbstractPipes(pipes, owning)[id := PipeRecord(info.pipe, owning[info.pipesTable])]
  {}

  lemma AbstractPipesAfterDestroy(pipes: map<Id, PipeInfo>, owning: map<Handle, Port>, id: Id)
    requires forall p :: p in pipes ==> pipes[p].pipesTable in owning
    ensures AbstractPipes(pipes - {id}, owning) == AbstractPipes(pipes, owning) - {id}
  {}

  lemma LinksAfterCreate(pipes: Table<PipeInfo>, entries: map<Id, Slot>, entryTables: EntryTables,
                         id: Id, info: PipeInfo, slot: Slot, table: Table<Ptr>)
    requires pipes.Valid() && EntriesLinked(pipes, entries, entryTables)
    requires id !in pipes.data && slot in pipes.free
    requires info.entriesTable !in entryTables && table.data == map[]
    requires forall p :: p in pipes.data ==> pipes.data[p].entriesTable in entryTables
    ensures var pipes' := pipes.Insert(id, info, slot);
            var tables' := entryTables[info.entriesTable := table];
            && EntriesLinked(pipes', entries, tables')
            && AbstractEntries(pipes', entries, tables') == AbstractEntries(pipes, entries, entryTables)
  {
    var pipes' := pipes.Insert(id, info, slot);
    var tables' := entryTables[info.entriesTable := table];
    forall e | e in entries
      ensures EntryLinked(pipes', entries[e], tables', e)
      ensures EntryRecordOf(pipes', entries[e], tables', e) == EntryRecordOf(pipes, entries[e], entryTables, e)
    {
      assert EntryLinked(pipes, entries[e], entryTables, e);
    }
    forall p, e | Holds(pipes'.data, tables', p, e)
      ensures e in entries && p in pipes'.pos && entries[e] == pipes'.pos[p]
    {
      assert Holds(pipes.data, entryTables, p, e);
    }
    AbstractEntriesIs(pipes', entries, tables', AbstractEntries(pipes, entries, entryTables));
  }

  lemma LinksAfterAdd(pipes: Table<PipeInfo>, entries: map<Id, Slot>, entryTables: EntryTables,
                      owning: map<Handle, Id>, id: Id, pipeId: Id, entry: Ptr, own: Table<Ptr>)
    requires pipes.Valid() && EntriesLinked(pipes, entries, entryTables)
    requires EntryTablesOwned(pipes.data, entryTables.Keys, owning)
    requires pipeId in pipes.data && id !in entries
    requires own.data == entryTables[pipes.data[pipeId].entriesTable].data[id := entry]
    ensures var entries' := entries[id := pipes.pos[pipeId]];
            var tables' := entryTables[pipes.data[pipeId].entriesTable := own];
            && EntriesLinked(pipes, entries', tables')
            && AbstractEntries(pipes, entries', tables')
               == AbstractEntries(pipes, entries, entryTables)[id := EntryRecord(pipeId, entry)]
  {
    var entries' := entries[id := pipes.pos[pipeId]];
    var tables' := entryTables[pipes.data[pipeId].entriesTable := own];
    forall e | e in entries
      ensures EntryLinked(pipes, entries[e], tables', e)
      ensures EntryRecordOf(pipes, entries[e], tables', e) == EntryRecordOf(pipes, entries[e], entryTables, e)
    {
      assert EntryLinked(pipes, entries[e], entryTables, e);
    }
    forall p, e | Holds(pipes.data, tables', p, e)
      ensures e in entries' && p in pipes.pos && entries'[e] == pipes.pos[p]
    {
      assert e == id || Holds(pipes.data, entryTables, p, e);
    }
    AbstractEntriesIs(pipes, entries', tables',
                      AbstractEntries(pipes, entries, entryTables)[id := EntryRecord(pipeId, entry)]);
  }

  /** An entry that is live in another pipe: afterwards that pipe holds an entry which leads elsewhere. */
  lemma LinksBrokenByDuplicate(pipes: Table<PipeInfo>, entries: map<Id, Slot>, entryTables: EntryTables,
                               owning: map<Handle, Id>, id: Id, pipeId: Id, own: Table<Ptr>)
    requires pipes.Valid() && EntriesLinked(pipes, entries, entryTables)
    requires EntryTablesOwned(pipes.data, entryTables.Keys, owning)
    requires pipeId in pipes.data && id in entries
    requires id !in entryTables[pipes.data[pipeId].entriesTable].data
    ensures !EntriesLinked(pipes, entries[id := pipes.pos[pipeId]],
                           entryTables[pipes.data[pipeId].entriesTable := own])
  {
    assert EntryLinked(pipes, entries[id], entryTables, id);
    var q := pipes.keyStore[entries[id]];
    assert q != pipeId;
    assert pipes.data[q].entriesTable != pipes.data[pipeId].entriesTable;
    assert Holds(pipes.data, entryTables[pipes.data[pipeId].entriesTable := own], q, id);
  }

  lemma LinksAfterRemove(pipes: Table<PipeInfo>, entries: map<Id, Slot>, entryTables: EntryTables,
                         owning: map<Handle, Id>, id: Id, pipeId: Id, own: Table<Ptr>)
    requires pipes.Valid() && EntriesLinked(pipes, entries, entryTables)
    requires EntryTablesOwned(pipes.data, entryTables.Keys, owning)
    requires id in entries && pipeId == pipes.keyStore[entries[id]]
    requires own.data == entryTables[pipes.data[pipeId].entriesTable].data - {id}
    ensures var entries' := entries - {id};
            var tables' := entryTables[pipes.data[pipeId].entriesTable := own];
            && EntriesLinked(pipes, entries', tables')
            && AbstractEntries(pipes, entries', tables') == AbstractEntries(pipes, entries, entryTables) - {id}
  {
    var entries' := entries - {id};
    var tables' := entryTables[pipes.data[pipeId].entriesTable := own];
    forall e | e in entries'
      ensures EntryLinked(pipes, entries[e], tables', e)
      ensures EntryRecordOf(pipes, entries[e], tables', e) == EntryRecordOf(pipes, entries[e], entryTables, e)
    {
      assert EntryLinked(pipes, entries[e], entryTables, e);
    }
    forall p, e | Holds(pipes.data, tables', p, e)
      ensures e in entries' && p in pipes.pos && entries'[e] == pipes.pos[p]
    {
      assert Holds(pipes.data, entryTables, p, e);
      EntriesOfPipe(pipes, entries, entryTables, owning, pipeId, e);
    }
    AbstractEntriesIs(pipes, entries', tables', AbstractEntries(pipes, entries, entryTables) - {id});
  }

  /** Which entries a pipe holds, seen from the entry map. */
  lemma EntriesOfPipe(pipes: Table<PipeInfo>, entries: map<Id, Slot>, entryTables: EntryTables,
                      owning: map<Handle, Id>, id: Id, e: Id)
    requires pipes.Valid() && EntriesLinked(pipes, entries, entryTables)
    requires EntryTablesOwned(pipes.data, entryTables.Keys, owning)
    requires id in pipes.data && e in entries
    ensures EntryLinked(pipes, entries[e], entryTables, e)
    ensures pipes.keyStore[entries[e]] == id <==> Holds(pipes.data, entryTables, id, e)
  {
    assert EntryLinked(pipes, entries[e], entryTables, e);
  }

  lemma LinkAfterDestroy(pipes: Table<PipeInfo>, entries: map<Id, Slot>, entryTables: EntryTables,
                         owning: map<Handle, Id>, id: Id, e: Id)
    requires pipes.Valid() && EntriesLinked(pipes, entries, entryTables)
    requires EntryTablesOwned(pipes.data, entryTables.Keys, owning)
    requires id in pipes.data && e in entries
    requires e !in entryTables[pipes.data[id].entriesTable].data
    ensures EntryLinked(pipes, entries[e], entryTables, e)
    ensures var pipes', tables' := pipes.Remove(id), entryTables - {pipes.data[id].entriesTable};
            && EntryLinked(pipes', entries[e], tables', e)
            && EntryRecordOf(pipes', entries[e], tables', e) == EntryRecordOf(pipes, entries[e], entryTables, e)
  {
    EntriesOfPipe(pipes, entries, entryTables, owning, id, e);
  }

  lemma LinksAfterDestroy(pipes: Table<PipeInfo>, entries: map<Id, Slot>, entryTables: EntryTables,
                          owning: map<Handle, Id>, id: Id)
    requires pipes.Valid() && EntriesLinked(pipes, entries, entryTables)
    requires EntryTablesOwned(pipes.data, entryTables.Keys, owning)
    requires id in pipes.data
    ensures var h := pipes.data[id].entriesTable;
            EntriesLinked(pipes.Remove(id), entries - entryTables[h].data.Keys, entryTables - {h})
  {
    var h := pipes.data[id].entriesTable;
    var pipes', entries', tables' := pipes.Remove(id), entries - entryTables[h].data.Keys, entryTables - {h};
    forall e | e in entries' ensures EntryLinked(pipes', entries'[e], tables', e) {
      LinkAfterDestroy(pipes, entries, entryTables, owning, id, e);
    }
    forall p, e | Holds(pipes'.data, tables', p, e)
      ensures e in entries' && p in pipes'.pos && entries'[e] == pipes'.pos[p]
    {
      assert Holds(pipes.data, entryTables, p, e);
      EntriesOfPipe(pipes, entries, entryTables, owning, id, e);
      EntriesOfPipe(pipes, entries, entryTables, owning, p, e);
    }
  }

  lemma AbstractEntriesAfterDestroy(pipes: Table<PipeInfo>, entries: map<Id, Slot>, entryTables: EntryTables,
                                    owning: map<Handle, Id>, id: Id)
    requires pipes.Valid() && EntriesLinked(pipes, entries, entryTables)
    requires EntryTablesOwned(pipes.data, entryTables.Keys, owning)
    requires id in pipes.data
    requires var h := pipes.data[id].entriesTable;
             EntriesLinked(pipes.Remove(id), entries - entryTables[h].data.Keys, entryTables - {h})
    ensures var h := pipes.data[id].entriesTable;
            var before := AbstractEntries(pipes, entries, entryTables);
            AbstractEntries(pipes.Remove(id), entries - entryTables[h].data.Keys, entryTables - {h})
            == before - EntriesIn(before, {id})
  {
    var h := pipes.data[id].entriesTable;
    var before := AbstractEntries(pipes, entries, entryTables);
    var gone := entryTables[h].data.Keys;
    forall e | e in entries ensures e in gone <==> e in EntriesIn(before, {id}) {
      EntriesOfPipe(pipes, entries, entryTables, owning, id, e);
    }
    assert before - gone == before - EntriesIn(before, {id});
    forall e | e in entries && e !in gone
      ensures EntryRecordOf(pipes.Remove(id), entries[e], entryTables - {h}, e) == before[e]
    {
      LinkAfterDestroy(pipes, entries, entryTables, owning, id, e);
    }
    AbstractEntriesIs(pipes.Remove(id), entries - gone, entryTables - {h}, before - gone);
  }

  // ---------------------------------------------------------------- reading the memory

  lemma PipeInMemory(w: World, id: Id)
    requires Consistent(w)
    ensures id in w.pipes.data <==> id in Abstract(w).pipes
    ensures id in w.pipes.data ==>
      && id in w.pipes.pos && w.pipes.pos[id] in w.pipes.keyStore
      && Abstract(w).pipes[id].pipe == w.pipes.data[id].pipe
      && w.pipes.data[id].entriesTable in w.entryTables && w.entryTables[w.pipes.data[id].entriesTable].Valid()
      && w.pipes.data[id].pipesTable in w.lists && w.lists[w.pipes.data[id].pipesTable].Valid()
      && id in w.lists[w.pipes.data[id].pipesTable].data
  {}

  lemma PortInMemory(w: World, port: Port, p: Id)
    requires Consistent(w)
    ensures port in w.ports.data <==> port in Abstract(w).ports
    ensures port in w.ports.data ==>
      && w.ports.data[port] in w.lists && w.lists[w.ports.data[port]].Valid()
      && w.ports.data[port] in w.portOwning && w.portOwning[w.ports.data[port]] == port
      && (p in w.lists[w.ports.data[port]].data <==>
            p in Abstract(w).pipes && Abstract(w).pipes[p].port == port)
  {
    if port in w.ports.data {
      assert Listed(w.lists, w.ports.data[port], p) <==> p in w.lists[w.ports.data[port]].data;
      PipesHavePorts(w);
    }
  }

  lemma PortListed(w: World, port: Port)
    requires Consistent(w)
    ensures port in w.ports.data <==> port in Abstract(w).ports
    ensures port in w.ports.data ==>
      && w.ports.data[port] in w.lists
      && w.lists[w.ports.data[port]].data.Keys == PipesOn(Abstract(w).pipes, port)
  {
    forall p | port in w.ports.data
      ensures p in w.lists[w.ports.data[port]].data <==> p in PipesOn(Abstract(w).pipes, port)
    {
      PortInMemory(w, port, p);
    }
  }

  lemma ListedPipe(w: World, h: Handle, p: Id)
    requires Consistent(w) && h in w.lists && p in w.lists[h].data
    ensures p in w.pipes.data && w.pipes.data[p].pipesTable == h
  {
    assert Listed(w.lists, h, p);
  }

  lemma ListShrinks(lists: Lists, h: Handle, a: Table<()>, b: Table<()>)
    ensures lists[h := a][h := b] == lists[h := b]
  {}

  lemma TablesAreValid(w: World)
    requires Consistent(w)
    ensures TablesValid(w)
  {}

  lemma TablesAreOwned(w: World)
    requires Consistent(w)
    ensures EntryTablesOwned(w.pipes.data, w.entryTables.Keys, w.pipeOwning)
    ensures ListsOwned(w.ports.data, w.lists.Keys, w.portOwning)
  {}

  lemma EntryInMemory(w: World, e: Id)
    requires Consistent(w)
    ensures e in w.entries.data <==> e in Abstract(w).entries
    ensures e in w.entries.data ==>
      && w.entries.data[e] in w.pipes.keyStore
      && var p := w.pipes.keyStore[w.entries.data[e]];
      && p in w.pipes.data && w.pipes.data[p].entriesTable in w.entryTables
      && e in w.entryTables[w.pipes.data[p].entriesTable].data
      && Abstract(w).entries[e] == EntryRecord(p, w.entryTables[w.pipes.data[p].entriesTable].data[e])
  {
    if e in w.entries.data {
      assert EntryLinked(w.pipes, w.entries.data[e], w.entryTables, e);
    }
  }

  lemma EntryOfPipe(w: World, id: Id, e: Id)
    requires Consistent(w) && id in w.pipes.data
    ensures e in w.entryTables[w.pipes.data[id].entriesTable].data
            <==> e in Abstract(w).entries && Abstract(w).entries[e].pipeId == id
  {
    if e in w.entries.data {
      EntriesOfPipe(w.pipes, w.entries.data, w.entryTables, w.pipeOwning, id, e);
    } else {
      assert !Holds(w.pipes.data, w.entryTables, id, e);
    }
  }

  /** Key bytes of a free slot are invisible: only the data of the tables matters. */
  lemma StaleEntryKey(w: World, h: Handle, t: Table<Ptr>)
    requires Consistent(w) && h in w.entryTables && t.Valid() && t.data == w.entryTables[h].data
    ensures var w' := w.(entryTables := w.entryTables[h := t]); Consistent(w') && Abstract(w') == Abstract(w)
  {
    AllValidAfterUpdate(w.entryTables, h, t);
    assert w.entryTables.Keys + {h} == w.entryTables.Keys;
    var tables' := w.entryTables[h := t];
    forall e | e in w.entries.data
      ensures EntryLinked(w.pipes, w.entries.data[e], tables', e)
      ensures EntryRecordOf(w.pipes, w.entries.data[e], tables', e)
           == EntryRecordOf(w.pipes, w.entries.data[e], w.entryTables, e)
    {
      assert EntryLinked(w.pipes, w.entries.data[e], w.entryTables, e);
    }
    forall p, e | Holds(w.pipes.data, tables', p, e) ensures Holds(w.pipes.data, w.entryTables, p, e) {}
    AbstractEntriesIs(w.pipes, w.entries.data, tables', AbstractEntries(w.pipes, w.entries.data, w.entryTables));
  }

  lemma StaleListKey(w: World, h: Handle, t: Table<()>)
    requires Consistent(w) && h in w.lists && t.Valid() && t.data == w.lists[h].data
    ensures var w' := w.(lists := w.lists[h := t]); Consistent(w') && Abstract(w') == Abstract(w)
  {
    AllValidAfterUpdate(w.lists, h, t);
    assert w.lists.Keys + {h} == w.lists.Keys;
    var lists' := w.lists[h := t];
    forall p | p in w.pipes.data ensures Listed(lists', w.pipes.data[p].pipesTable, p) {
      assert Listed(w.lists, w.pipes.data[p].pipesTable, p);
    }
    forall k, p | Listed(lists', k, p) ensures Listed(w.lists, k, p) {}
  }

  // ---------------------------------------------------------------- updates of the whole memory

  /** Half way through the creation of a pipe: its id is on a list but the pipe is not live yet. */
  ghost function Enlisted(w: World, h: Handle, id: Id, listSlot: Slot): World
    requires h in w.lists && w.lists[h].Valid() && (id !in w.lists[h].pos ==> listSlot in w.lists[h].free)
  {
    w.(lists := w.lists[h := w.lists[h].Insert(id, (), listSlot)])
  }

  /** A port seen for the first time gets an empty list. */
  ghost function WithPort(w: World, port: Port, h: Handle, list: Table<()>, slot: Slot): World
    requires w.ports.Valid() && (port !in w.ports.pos ==> slot in w.ports.free)
  {
    w.(ports := w.ports.Insert(port, h, slot), lists := w.lists[h := list], portOwning := w.portOwning[h := port])
  }

  lemma PortOpenedConsistent(w: World, port: Port, h: Handle, list: Table<()>, slot: Slot)
    requires Consistent(w) && port !in w.ports.data && slot in w.ports.free && h !in w.lists
    requires list.Valid() && list.data == map[]
    ensures Consistent(WithPort(w, port, h, list, slot))
  {
    hide EntriesLinked, EntryTablesOwned, ListsOwned, PipesListed, AllValid;
    AllValidAfterUpdate(w.lists, h, list);
    OwnersAfterPort(w.ports.data, w.lists.Keys, w.portOwning, port, h);
    ListsAfterPort(w.pipes.data, w.lists, h, list);
  }

  lemma PortOpened(w: World, port: Port, h: Handle, list: Table<()>, slot: Slot)
    requires Consistent(w) && port !in w.ports.data && slot in w.ports.free && h !in w.lists
    requires list.Valid() && list.data == map[]
    ensures var w' := WithPort(w, port, h, list, slot);
            Consistent(w') && Abstract(w') == Abstract(w).(ports := Abstract(w).ports + {port})
  {
    hide Consistent, AbstractEntries, AbstractPipes, EntryLinked;
    PortOpenedConsistent(w, port, h, list, slot);
    TablesAreValid(w);
    LinkedAndOwned(w);
    var w' := WithPort(w, port, h, list, slot);
    PipesHavePorts(w);
    PipesHavePorts(w');
    AbstractPipesFrame(w.pipes.data, w.portOwning, w'.portOwning);
  }

  lemma LinkedAndOwned(w: World)
    requires Consistent(w)
    ensures w.portOwning.Keys == w.lists.Keys && EntriesLinked(w.pipes, w.entries.data, w.entryTables)
    ensures forall e :: e in w.entries.data ==> EntryLinked(w.pipes, w.entries.data[e], w.entryTables, e)
  {}

  ghost function WithoutPort(w: World, port: Port): World
    requires w.ports.Valid() && port in w.ports.data
  {
    var h := w.ports.data[port];
    w.(ports := w.ports.Remove(port), lists := w.lists - {h}, portOwning := w.portOwning - {h})
  }

  lemma PortClosed(w: World, port: Port)
    requires Consistent(w) && port in w.ports.data && w.lists[w.ports.data[port]].data == map[]
    ensures var w' := WithoutPort(w, port);
            Consistent(w') && Abstract(w') == Abstract(w).(ports := Abstract(w).ports - {port})
  {
    OwnersWithoutPort(w.ports.data, w.lists.Keys, w.portOwning, port);
    ListsWithoutPort(w.pipes.data, w.lists, w.ports.data[port]);
    PipesHavePorts(w);
    AbstractPipesFrame(w.pipes.data, w.portOwning, w.portOwning - {w.ports.data[port]});
  }

  lemma EnlistedOnNewPort(w: World, port: Port, h: Handle, list: Table<()>, slot: Slot, id: Id, listSlot: Slot)
    requires w.ports.Valid() && port !in w.ports.data && slot in w.ports.free
    requires list.Valid() && list.data == map[] && listSlot in list.free
    ensures Enlisted(WithPort(w, port, h, list, slot), h, id, listSlot)
         == w.(ports := w.ports.Insert(port, h, slot),
               lists := w.lists[h := list.Insert(id, (), listSlot)],
               portOwning := w.portOwning[h := port])
  {
    var inserted := list.Insert(id, (), listSlot);
    assert w.lists[h := list][h := inserted] == w.lists[h := inserted];
  }

  /** A pipe on a port that has a list. */
  ghost function WithPipe(w: World, id: Id, info: PipeInfo, table: Table<Ptr>, slot: Slot, listSlot: Slot): World
    requires w.pipes.Valid() && (id !in w.pipes.pos ==> slot in w.pipes.free)
    requires info.pipesTable in w.lists
    requires var l := w.lists[info.pipesTable]; l.Valid() && (id !in l.pos ==> listSlot in l.free)
  {
    w.(pipes := w.pipes.Insert(id, info, slot),
       lists := w.lists[info.pipesTable := w.lists[info.pipesTable].Insert(id, (), listSlot)],
       entryTables := w.entryTables[info.entriesTable := table],
       pipeOwning := w.pipeOwning[info.entriesTable := id])
  }

  /** What is to be known of the memory before a pipe is created. */
  lemma BeforeCreate(w: World, id: Id, h: Handle)
    requires Consistent(w) && id !in w.pipes.data && h in w.lists
    ensures w.pipes.Valid() && w.lists[h].Valid() && id !in w.lists[h].data && id !in w.lists[h].pos
    ensures h in w.portOwning && w.portOwning[h] in w.ports.data
    ensures forall p :: p in w.pipes.data ==> w.pipes.data[p].entriesTable in w.entryTables
  {
    assert !Listed(w.lists, h, id);
  }

  lemma PipeCreatedConsistent(w: World, id: Id, info: PipeInfo, table: Table<Ptr>, slot: Slot, listSlot: Slot)
    requires Consistent(w) && id !in w.pipes.data && slot in w.pipes.free
    requires info.pipesTable in w.lists && listSlot in w.lists[info.pipesTable].free
    requires info.entriesTable !in w.entryTables && table.Valid() && table.data == map[]
    ensures w.lists[info.pipesTable].Valid() && Consistent(WithPipe(w, id, info, table, slot, listSlot))
  {
    hide EntriesLinked, EntryTablesOwned, ListsOwned, PipesListed, AllValid, AbstractEntries;
    BeforeCreate(w, id, info.pipesTable);
    var w' := WithPipe(w, id, info, table, slot, listSlot);
    ListsAfterCreate(w.pipes.data, w.lists, id, info, w'.lists[info.pipesTable]);
    LinksAfterCreate(w.pipes, w.entries.data, w.entryTables, id, info, slot, table);
    OwnersAfterCreate(w.pipes.data, w.entryTables.Keys, w.pipeOwning, id, info);
    AllValidAfterUpdate(w.entryTables, info.entriesTable, table);
    AllValidAfterUpdate(w.lists, info.pipesTable, w'.lists[info.pipesTable]);
    assert w.lists.Keys + {info.pipesTable} == w.lists.Keys;
  }

  lemma PipeCreated(w: World, id: Id, info: PipeInfo, table: Table<Ptr>, slot: Slot, listSlot: Slot)
    requires Consistent(w) && id !in w.pipes.data && slot in w.pipes.free
    requires info.pipesTable in w.lists && listSlot in w.lists[info.pipesTable].free
    requires info.entriesTable !in w.entryTables && table.Valid() && table.data == map[]
    ensures id !in w.lists[info.pipesTable].data
    ensures var w' := WithPipe(w, id, info, table, slot, listSlot);
            && Consistent(w')
            && Abstract(w') == CreatePipe(Abstract(w), id, info.pipe, w.portOwning[info.pipesTable])
  {
    hide Consistent, AbstractEntries, AbstractPipes, EntryLinked, EntriesLinked;
    BeforeCreate(w, id, info.pipesTable);
    PipeCreatedConsistent(w, id, info, table, slot, listSlot);
    var w' := WithPipe(w, id, info, table, slot, listSlot);
    PipesHavePorts(w);
    PipesHavePorts(w');
    LinkedAndOwned(w);
    LinkedAndOwned(w');
    AbstractPipesAfterCreate(w.pipes.data, w.portOwning, id, info);
    LinksAfterCreate(w.pipes, w.entries.data, w.entryTables, id, info, slot, table);
    assert w.ports.data.Keys + {w.portOwning[info.pipesTable]} == w.ports.data.Keys;
  }

  /** The pipe put on the list of its port first and into the other tables later. */
  lemma Published(w: World, id: Id, info: PipeInfo, table: Table<Ptr>, slot: Slot, listSlot: Slot)
    requires Consistent(w) && id !in w.pipes.data && slot in w.pipes.free
    requires info.pipesTable in w.lists && listSlot in w.lists[info.pipesTable].free
    requires info.entriesTable !in w.entryTables && table.Valid() && table.data == map[]
    ensures w.pipes.Valid() && w.lists[info.pipesTable].Valid()
    ensures Consistent(Enlisted(w, info.pipesTable, id, listSlot).(
                         pipes := w.pipes.Insert(id, info, slot),
                         entryTables := w.entryTables[info.entriesTable := table],
                         pipeOwning := w.pipeOwning[info.entriesTable := id]))
    ensures Abstract(Enlisted(w, info.pipesTable, id, listSlot).(
                       pipes := w.pipes.Insert(id, info, slot),
                       entryTables := w.entryTables[info.entriesTable := table],
                       pipeOwning := w.pipeOwning[info.entriesTable := id]))
            == CreatePipe(Abstract(w), id, info.pipe, w.portOwning[info.pipesTable])
  {
    hide Consistent, Abstract;
    TablesAreValid(w);
    PipeCreated(w, id, info, table, slot, listSlot);
  }

  ghost function WithoutPipe(w: World, id: Id): World
    requires Consistent(w) && id in w.pipes.data
  {
    var info := w.pipes.data[id];
    w.(pipes := w.pipes.Remove(id),
       entries := w.entries.RemoveAll(w.entryTables[info.entriesTable].data.Keys),
       lists := w.lists[info.pipesTable := w.lists[info.pipesTable].Remove(id)],
       entryTables := w.entryTables - {info.entriesTable},
       pipeOwning := w.pipeOwning - {info.entriesTable})
  }

  lemma PipeDestroyed(w: World, id: Id)
    requires Consistent(w) && id in w.pipes.data
    ensures Consistent(WithoutPipe(w, id))
    ensures Abstract(WithoutPipe(w, id)) == DestroyPipes(Abstract(w), {id})
  {
    var w' := WithoutPipe(w, id);
    PipesHavePorts(w);
    ListsAfterDestroy(w.pipes.data, w.lists, id, w'.lists[w.pipes.data[id].pipesTable]);
    AbstractPipesAfterDestroy(w.pipes.data, w.portOwning, id);
    LinksAfterDestroy(w.pipes, w.entries.data, w.entryTables, w.pipeOwning, id);
    AbstractEntriesAfterDestroy(w.pipes, w.entries.data, w.entryTables, w.pipeOwning, id);
    OwnersAfterDestroy(w.pipes.data, w.entryTables.Keys, w.pipeOwning, id);
    var h := w.pipes.data[id].pipesTable;
    AllValidAfterUpdate(w.lists, h, w'.lists[h]);
    assert w.lists.Keys + {h} == w.lists.Keys;
  }

  ghost function WithEntry(w: World, id: Id, pipeId: Id, entry: Ptr, slot: Slot, ownSlot: Slot): World
    requires w.entries.Valid() && (id !in w.entries.pos ==> slot in w.entries.free)
    requires pipeId in w.pipes.data && pipeId in w.pipes.pos && w.pipes.data[pipeId].entriesTable in w.entryTables
    requires var l := w.entryTables[w.pipes.data[pipeId].entriesTable];
             l.Valid() && (id !in l.pos ==> ownSlot in l.free)
  {
    var h := w.pipes.data[pipeId].entriesTable;
    w.(entries := w.entries.Insert(id, w.pipes.pos[pipeId], slot),
       entryTables := w.entryTables[h := w.entryTables[h].Insert(id, entry, ownSlot)])
  }

  /** Adding an entry keeps the tables consistent exactly when its id is not live already. */
  lemma EntryAdded(w: World, id: Id, pipeId: Id, entry: Ptr, slot: Slot, ownSlot: Slot)
    requires Consistent(w) && pipeId in w.pipes.data && (id !in w.entries.data ==> slot in w.entries.free)
    requires var own := w.entryTables[w.pipes.data[pipeId].entriesTable]; id !in own.data && ownSlot in own.free
    ensures var w' := WithEntry(w, id, pipeId, entry, slot, ownSlot);
            && (Consistent(w') <==> id !in w.entries.data)
            && (Consistent(w') ==> Abstract(w') == AddEntry(Abstract(w), id, pipeId, entry))
  {
    var w' := WithEntry(w, id, pipeId, entry, slot, ownSlot);
    var h := w.pipes.data[pipeId].entriesTable;
    if id in w.entries.data {
      LinksBrokenByDuplicate(w.pipes, w.entries.data, w.entryTables, w.pipeOwning, id, pipeId, w'.entryTables[h]);
    } else {
      LinksAfterAdd(w.pipes, w.entries.data, w.entryTables, w.pipeOwning, id, pipeId, entry, w'.entryTables[h]);
      AllValidAfterUpdate(w.entryTables, h, w'.entryTables[h]);
      assert w.entryTables.Keys + {h} == w.entryTables.Keys;
    }
  }

  /** Pipes 1 and 2 on one port and entry 7 added to both: the tables disagree afterwards. */
  lemma DuplicateEntryWitness() returns (w: World, id: Id, pipeId: Id, slot: Slot, ownSlot: Slot)
    ensures id == Fnv.GenerateId(7) && pipeId == Fnv.GenerateId(2)
    ensures w.pipes.data.Keys == {Fnv.GenerateId(1), Fnv.GenerateId(2)}
    ensures Consistent(w) && id in w.entries.data && pipeId in w.pipes.data
    ensures var own := w.entryTables[w.pipes.data[pipeId].entriesTable]; id !in own.data && ownSlot in own.free
    ensures !Consistent(WithEntry(w, id, pipeId, 7, slot, ownSlot))
  {
    hide Consistent, Abstract, Fnv.GenerateId;
    var list: Table<()> := Table(map[], map[], map[], {0, 1});
    var table: Table<Ptr> := Table(map[], map[], map[], {0, 1});
    var w0 := World(Table(map[], map[], map[], {0, 1}), Table(map[], map[], map[], {0, 1}),
                    Table(map[], map[], map[], {0, 1}), map[], map[], map[], map[]);
    EmptyIsConsistent(w0);
    var first, second, e := Fnv.GenerateId(1), Fnv.GenerateId(2), Fnv.GenerateId(7);
    Fnv.SameBlockDiffers(1, 2);
    PortOpened(w0, 0, 100, list, 0);
    var w1 := WithPort(w0, 0, 100, list, 0);
    PipeCreated(w1, first, PipeInfo(1, 200, 100), table, 0, 0);
    var w2 := WithPipe(w1, first, PipeInfo(1, 200, 100), table, 0, 0);
    PipeCreated(w2, second, PipeInfo(2, 201, 100), table, 1, 1);
    var w3 := WithPipe(w2, second, PipeInfo(2, 201, 100), table, 1, 1);
    EntryAdded(w3, e, first, 7, 0, 0);
    w, id, pipeId, slot, ownSlot := WithEntry(w3, e, first, 7, 0, 0), e, second, 1, 0;
    EntryAdded(w, e, second, 7, 1, 0);
  }

  lemma EmptyIsConsistent(w: World)
    requires TablesValid(w) && w.pipes.data == map[] && w.entries.data == map[] && w.ports.data == map[]
    requires w.lists == map[] && w.entryTables == map[] && w.pipeOwning == map[] && w.portOwning == map[]
    ensures Consistent(w) && Abstract(w) == Flat(map[], map[], {})
  {}

  ghost function WithoutEntry(w: World, id: Id): World
    requires Consistent(w) && id in w.entries.data
  {
    assert EntryLinked(w.pipes, w.entries.data[id], w.entryTables, id);
    var h := w.pipes.data[w.pipes.keyStore[w.entries.data[id]]].entriesTable;
    w.(entries := w.entries.Remove(id), entryTables := w.entryTables[h := w.entryTables[h].Remove(id)])
  }

  lemma EntryRemoved(w: World, id: Id)
    requires Consistent(w) && id in w.entries.data
    ensures Consistent(WithoutEntry(w, id))
    ensures Abstract(WithoutEntry(w, id)) == RemoveEntry(Abstract(w), id)
  {
    assert EntryLinked(w.pipes, w.entries.data[id], w.entryTables, id);
    var w' := WithoutEntry(w, id);
    var pipeId := w.pipes.keyStore[w.entries.data[id]];
    var h := w.pipes.data[pipeId].entriesTable;
    LinksAfterRemove(w.pipes, w.entries.data, w.entryTables, w.pipeOwning, id, pipeId, w'.entryTables[h]);
    AllValidAfterUpdate(w.entryTables, h, w'.entryTables[h]);
    assert w.entryTables.Keys + {h} == w.entryTables.Keys;
  }
}

/** The operations of the flow pipes manager, as they rearrange the tables in place. */
module PipesManager {
  import opened HashTable
  import opened PipesWorld
  import Fnv

  datatype Status = Success | InvalidValue | NoMemory | NotFound | DriverError

  /** A call of the hash library that failed. */
  datatype Failure = InsertFailed | CreateFailed

  /** The pipe is live and does not hold the entry yet; other pipes are not looked at. */
  predicate Accepts(f: Flat, pipeId: Id, entryId: Id) {
    pipeId in f.pipes && !(entryId in f.entries && f.entries[entryId].pipeId == pipeId)
  }

  /** What an operation that stops at the first failing call returns. */
  ghost function AnswerOf(before: seq<Failure>, after: seq<Failure>): Status {
    if |after| <= |before| then Success
    else if after[|before|] == CreateFailed then NoMemory
    else InvalidValue
  }

  lemma FreeUndoesAllocate<V>(tables: map<Handle, Table<V>>, h: Handle, t: Table<V>)
    requires h !in tables
    ensures tables[h := t] - {h} == tables
  {}

  lemma FreshHandle(used: set<Handle>)
    ensures exists h: Handle :: h !in used
  {
    var top, rest := 0, used;
    while rest != {}
      invariant forall h :: h in used ==> h in rest || h < top
      decreases rest
    {
      SomeKey(rest);
      var h :| h in rest;
      rest := rest - {h};
      top := if h < top then top else h + 1;
    }
    assert top !in used;
  }

  /** Any address that is not in use; addresses of freed tables may come back. */
  method FreshAddress(used: set<Handle>) returns (h: Handle)
    ensures h !in used
  {
    FreshHandle(used);
    h :| h !in used;
  }

  class PipesManager {
    var pipes: Table<PipeInfo>
    var entries: Table<Slot>
    var ports: Table<Handle>
    var lists: Lists
    var entryTables: EntryTables
    ghost var pipeOwning: map<Handle, Id>
    ghost var portOwning: map<Handle, Port>
    /** The calls that failed so far. */
    ghost var failed: seq<Failure>

    ghost function Memory(): World
      reads this
    {
      World(pipes, entries, ports, lists, entryTables, pipeOwning, portOwning)
    }

    ghost predicate Valid()
      reads this
    {
      Consistent(Memory())
    }

    ghost function View(): Flat
      requires Valid()
      reads this
    {
      Abstract(Memory())
    }

    constructor ()
      ensures Valid() && View() == Flat(map[], map[], {}) && failed == []
    {
      hide Consistent, Abstract;
      pipes, entries, ports := Empty(), Empty(), Empty();
      lists, entryTables := map[], map[];
      pipeOwning, portOwning := map[], map[];
      failed := [];
      new;
      EmptyIsConsistent(Memory());
    }

    /** rte_hash_add_key and rte_hash_add_key_data. */
    method Insert<V>(t: Table<V>, k: Key, v: V) returns (ok: bool, t': Table<V>, ghost slot: Slot)
      requires t.Valid()
      modifies this`failed
      ensures failed == if ok then old(failed) else old(failed) + [InsertFailed]
      ensures !ok ==> t' == t
      ensures ok ==> (k !in t.data ==> slot in t.free) && t' == t.Insert(k, v, slot)
    {
      ok, t', slot := TryInsert(t, k, v);
      if !ok {
        failed := failed + [InsertFailed];
      }
    }

    /** rte_hash_create and the allocation of a record that goes with it. */
    method CanAllocate() returns (ok: bool)
      modifies this`failed
      ensures failed == if ok then old(failed) else old(failed) + [CreateFailed]
    {
      ok := *;
      if !ok {
        failed := failed + [CreateFailed];
      }
    }

    /** create_pipe_info: either of the two allocations may fail. */
    method TryAllocateEntriesTable() returns (ok: bool, h: Handle)
      modifies this`entryTables, this`failed
      ensures failed == if ok then old(failed) else old(failed) + [CreateFailed]
      ensures ok ==> h !in old(entryTables) && entryTables == old(entryTables)[h := Empty()]
      ensures !ok ==> entryTables == old(entryTables)
    {
      h := 0;
      ok := CanAllocate();
      if ok {
        h := FreshAddress(entryTables.Keys);
        entryTables := entryTables[h := Empty()];
      }
    }

    method FreeEntriesTable(h: Handle)
      requires h in entryTables
      modifies this`entryTables
      ensures entryTables == old(entryTables) - {h}
    {
      entryTables := entryTables - {h};
    }

    method FreeList(h: Handle)
      requires h in lists
      modifies this`lists
      ensures lists == old(lists) - {h}
    {
      lists := lists - {h};
    }

    /** The two insertions of pipes_manager_pipe_add_entry; the first is undone when the second fails. */
    method LinkEntry(entryId: Id, entry: Ptr, pipeId: Id) returns (ok: bool)
      requires Valid() && pipeId in pipes.data
      requires pipeId in pipes.pos && pipes.data[pipeId].entriesTable in entryTables
      requires entryId !in entryTables[pipes.data[pipeId].entriesTable].data
      modifies this`entries, this`entryTables, this`failed
      ensures failed == if ok then old(failed) else old(failed) + [InsertFailed]
      ensures Valid() <==> !(ok && entryId in old(entries.data))
      ensures Valid() ==> View() == if ok then PipesWorld.AddEntry(old(View()), entryId, pipeId, entry) else old(View())
    {
      hide Consistent, Abstract;
      ghost var before := Memory();
      PipeInMemory(before, pipeId);
      TablesAreValid(before);
      var h := pipes.data[pipeId].entriesTable;
      var inserted, own, ownSlot := Insert(entryTables[h], entryId, entry);
      if !inserted {
        return false;
      }
      entryTables := entryTables[h := own];
      var linked, entries', slot := Insert(entries, entryId, pipes.pos[pipeId]);
      if !linked {
        StaleEntryKey(before, h, own.Remove(entryId));
        entryTables := entryTables[h := own.Remove(entryId)];
        assert entryTables == before.entryTables[h := own.Remove(entryId)];
        return false;
      }
      entries := entries';
      EntryAdded(before, entryId, pipeId, entry, slot, ownSlot);
      assert Memory() == WithEntry(before, entryId, pipeId, entry, slot, ownSlot);
      return true;
    }

    method AddEntry(entry: Ptr, pipeId: Id) returns (status: Status, entryId: Id)
      requires Valid()
      modifies this`entries, this`entryTables, this`failed
      ensures entryId == Fnv.GenerateId(entry)
      ensures status == if Accepts(old(View()), pipeId, entryId) then AnswerOf(old(failed), failed) else InvalidValue
      ensures old(failed) <= failed && (!Accepts(old(View()), pipeId, entryId) ==> failed == old(failed))
      ensures Valid() <==> !(status.Success? && entryId in old(View()).entries)
      ensures status.Success? && Valid() ==> View() == PipesWorld.AddEntry(old(View()), entryId, pipeId, entry)
      ensures !status.Success? ==> status.InvalidValue? && View() == old(View())
    {
      hide Consistent, Abstract;
      entryId := Fnv.GenerateId(entry);
      PipeInMemory(Memory(), pipeId);
      if pipeId !in pipes.data {
        return InvalidValue, entryId;
      }
      EntryOfPipe(Memory(), pipeId, entryId);
      EntryInMemory(Memory(), entryId);
      if pipes.pos[pipeId] !in pipes.keyStore {
        return NotFound, entryId;
      }
      if entryId in entryTables[pipes.data[pipeId].entriesTable].data {
        return InvalidValue, entryId;
      }
      var ok := LinkEntry(entryId, entry, pipeId);
      status := if ok then Success else InvalidValue;
    }

    method GetPipe(pipeId: Id) returns (status: Status, pipe: Ptr)
      requires Valid()
      ensures status == if pipeId in View().pipes then Success else NotFound
      ensures status.Success? ==> pipe == View().pipes[pipeId].pipe
    {
      if pipeId !in pipes.data {
        return NotFound, 0;
      }
      return Success, pipes.data[pipeId].pipe;
    }

    /** Three lookups, the second through the key slot stored with the entry. */
    method GetEntry(entryId: Id) returns (status: Status, entry: Ptr)
      requires Valid()
      ensures status == if entryId in View().entries then Success else NotFound
      ensures status.Success? ==> entry == View().entries[entryId].entry
    {
      hide Consistent, Abstract;
      status, entry := NotFound, 0;
      EntryInMemory(Memory(), entryId);
      if entryId !in entries.data {
        return;
      }
      var pipeId := pipes.keyStore[entries.data[entryId]];
      if pipeId !in pipes.data {
        return;
      }
      var table := entryTables[pipes.data[pipeId].entriesTable];
      if entryId !in table.data {
        return;
      }
      status, entry := Success, table.data[entryId];
    }

    method RemoveEntry(entryId: Id) returns (status: Status)
      requires Valid()
      modifies this`entries, this`entryTables
      ensures Valid()
      ensures status == if entryId in old(View()).entries then Success else InvalidValue
      ensures View() == PipesWorld.RemoveEntry(old(View()), entryId)
    {
      hide Consistent, Abstract;
      ghost var before := Memory();
      EntryInMemory(before, entryId);
      if entryId !in entries.data {
        assert before.entries.data - {entryId} == before.entries.data;
        assert View().entries - {entryId} == View().entries;
        return InvalidValue;
      }
      var pipeId := pipes.keyStore[entries.data[entryId]];
      if pipeId !in pipes.data {
        return InvalidValue;
      }
      TablesAreValid(before);
      PipeInMemory(before, pipeId);
      var h := pipes.data[pipeId].entriesTable;
      entries := entries.Remove(entryId);
      if entryId !in entryTables[h].data {
        return NotFound;
      }
      entryTables := entryTables[h := entryTables[h].Remove(entryId)];
      EntryRemoved(before, entryId);
      assert Memory() == WithoutEntry(before, entryId);
      return Success;
    }

    /** The loop that takes the entries of a pipe out of the entry map, in the order the table yields them. */
    method EraseEntries(table: Table<Ptr>)
      requires entries.Valid()
      modifies this`entries
      ensures entries == old(entries).RemoveAll(table.data.Keys)
    {
      var todo: set<Id> := table.data.Keys;
      ghost var done: set<Id> := {};
      RemoveNothing(entries);
      while todo != {}
        invariant done + todo == table.data.Keys && done !! todo
        invariant entries == old(entries).RemoveAll(done)
        decreases todo
      {
        var e := NextKey(todo);
        RemoveAllStep(old(entries), done, e);
        entries := entries.Remove(e);
        todo, done := todo - {e}, done + {e};
      }
    }

    method DestroyPipe(pipeId: Id) returns (status: Status)
      requires Valid()
      modifies this`pipes, this`entries, this`ports, this`lists, this`entryTables, this`pipeOwning, this`portOwning
      ensures Valid()
      ensures status == (if pipeId in old(View()).pipes then Success else InvalidValue)
      ensures View() == DestroyPipes(old(View()), if status.Success? then {pipeId} else {})
    {
      hide Consistent, Abstract;
      ghost var before := Memory();
      PipeInMemory(before, pipeId);
      if pipeId !in pipes.data {
        DestroyNothing(View());
        return InvalidValue;
      }
      TablesAreValid(before);
      var info := pipes.data[pipeId];
      if pipes.pos[pipeId] !in pipes.keyStore || pipeId !in lists[info.pipesTable].data {
        return NotFound;
      }
      lists := lists[info.pipesTable := lists[info.pipesTable].Remove(pipeId)];
      EraseEntries(entryTables[info.entriesTable]);
      pipes := pipes.Remove(pipeId);
      FreeEntriesTable(info.entriesTable);
      pipeOwning := pipeOwning - {info.entriesTable};
      PipeDestroyed(before, pipeId);
      assert Memory() == WithoutPipe(before, pipeId);
      return Success;
    }

    /** A new list that holds one pipe id. */
    method NewList(id: Id) returns (status: Status, h: Handle, list: Table<()>, ghost listSlot: Slot)
      modifies this`lists, this`failed
      ensures old(failed) <= failed && status == AnswerOf(old(failed), failed)
      ensures !status.Success? ==> lists == old(lists)
      ensures status.Success? ==>
        && h !in old(lists) && listSlot in Empty<()>().free && list == Empty<()>().Insert(id, (), listSlot)
        && lists == old(lists)[h := list]
    {
      list := Empty();
      var created := CanAllocate();
      if !created {
        return NoMemory, 0, list, 0;
      }
      h := FreshAddress(lists.Keys);
      lists := lists[h := list];
      var ok, list', slot := Insert(list, id, ());
      if !ok {
        FreeUndoesAllocate(old(lists), h, list);
        FreeList(h);
        return InvalidValue, h, list, 0;
      }
      lists := lists[h := list'];
      return Success, h, list', slot;
    }

    /** A port's first pipe: the new list takes the pipe id before the port table takes the list. */
    method OpenPort(id: Id, port: Port) returns (status: Status, h: Handle, ghost portSlot: Slot, ghost listSlot: Slot)
      requires ports.Valid() && port !in ports.data
      modifies this`ports, this`lists, this`portOwning, this`failed
      ensures old(failed) <= failed && status == AnswerOf(old(failed), failed)
      ensures !status.Success? ==>
        && lists == old(lists) && ports == old(ports) && portOwning == old(portOwning)
      ensures status.Success? ==>
        && h !in old(lists) && portSlot in old(ports.free) && listSlot in Empty<()>().free
        && lists == old(lists)[h := Empty<()>().Insert(id, (), listSlot)]
        && ports == old(ports).Insert(port, h, portSlot)
        && portOwning == old(portOwning)[h := port]
    {
      portSlot := 0;
      var list;
      status, h, list, listSlot := NewList(id);
      if !status.Success? {
        return;
      }
      var ok, ports', slot := Insert(ports, port, h);
      if !ok {
        lists := lists[h := list.Remove(id)];
        FreeUndoesAllocate(old(lists), h, list.Remove(id));
        FreeList(h);
        status := InvalidValue;
        return;
      }
      ports, portSlot := ports', slot;
      portOwning := portOwning[h := port];
    }

    /** Rollback: takes the pipe id off the list, and closes the port again if it was opened for this pipe. */
    method Delist(id: Id, port: Port, h: Handle, isNew: bool, ghost w: World, ghost listSlot: Slot)
      requires Consistent(w) && id !in w.pipes.data && h in w.lists && listSlot in w.lists[h].free
      requires port in w.ports.data && w.ports.data[port] == h
      requires isNew ==> w.lists[h].data == map[]
      requires id !in w.lists[h].data && Memory() == Enlisted(w, h, id, listSlot)
      modifies this`ports, this`lists, this`portOwning
      ensures Valid()
      ensures View() == Abstract(w).(ports := Abstract(w).ports - if isNew then {port} else {})
      ensures lists.Keys == w.lists.Keys - if isNew then {h} else {}
    {
      hide Consistent, Abstract;
      TablesAreValid(w);
      StaleListKey(w, h, lists[h].Remove(id));
      lists := lists[h := lists[h].Remove(id)];
      ghost var w1 := w.(lists := w.lists[h := lists[h]]);
      assert Memory() == w1;
      if isNew {
        PortClosed(w1, port);
        ports := ports.Remove(port);
        FreeList(h);
        portOwning := portOwning - {h};
        assert Memory() == WithoutPort(w1, port);
      } else {
        assert Abstract(w).ports - {} == Abstract(w).ports;
      }
    }

    /** The second half of pipes_manager_pipe_create, with its two rollbacks. */
    method PublishPipe(pipe: Ptr, id: Id, port: Port, h: Handle, isNew: bool, ghost w: World, ghost listSlot: Slot)
      returns (status: Status)
      requires Consistent(w) && id !in w.pipes.data && h in w.lists && listSlot in w.lists[h].free
      requires port in w.ports.data && w.ports.data[port] == h && w.portOwning[h] == port
      requires isNew ==> w.lists[h].data == map[]
      requires id !in w.lists[h].data && Memory() == Enlisted(w, h, id, listSlot)
      modifies this
      ensures Valid()
      ensures old(failed) <= failed && status == AnswerOf(old(failed), failed)
      ensures status.Success? ==> View() == PipesWorld.CreatePipe(Abstract(w), id, pipe, port)
      ensures !status.Success? ==>
        && View() == Abstract(w).(ports := Abstract(w).ports - if isNew then {port} else {})
        && lists.Keys == w.lists.Keys - (if isNew then {h} else {})
        && entryTables.Keys == w.entryTables.Keys
    {
      hide Consistent, Abstract;
      BeforeCreate(w, id, h);
      status := RecordPipe(pipe, id, h, w, listSlot);
      if !status.Success? {
        Delist(id, port, h, isNew, w, listSlot);
      }
    }

    /** The pipe's own table is created and its record stored; a table without a record is freed again. */
    method RecordPipe(pipe: Ptr, id: Id, h: Handle, ghost w: World, ghost listSlot: Slot) returns (status: Status)
      requires Consistent(w) && id !in w.pipes.data && h in w.lists && listSlot in w.lists[h].free
      requires h in w.portOwning && id !in w.lists[h].data && w.lists[h].Valid() && w.pipes.Valid()
      requires Memory() == Enlisted(w, h, id, listSlot)
      modifies this`pipes, this`entryTables, this`pipeOwning, this`failed
      ensures old(failed) <= failed && status == AnswerOf(old(failed), failed)
      ensures status.Success? ==> Valid() && View() == PipesWorld.CreatePipe(Abstract(w), id, pipe, w.portOwning[h])
      ensures !status.Success? ==> Memory() == Enlisted(w, h, id, listSlot)
    {
      hide Consistent, Abstract;
      var ok, table := TryAllocateEntriesTable();
      if !ok {
        return NoMemory;
      }
      var info := PipeInfo(pipe, table, h);
      var ok2, pipes', slot := Insert(pipes, id, info);
      if !ok2 {
        FreeUndoesAllocate(w.entryTables, table, Empty());
        FreeEntriesTable(table);
        return InvalidValue;
      }
      pipes := pipes';
      pipeOwning := pipeOwning[table := id];
      Published(w, id, info, Empty(), slot, listSlot);
      return Success;
    }

    /** The first half of pipes_manager_pipe_create: puts the pipe id on the list of its port. */
    method Enlist(id: Id, port: Port)
      returns (status: Status, h: Handle, isNew: bool, ghost w: World, ghost listSlot: Slot)
      requires Valid() && id !in View().pipes && id !in pipes.data
      modifies this`ports, this`lists, this`portOwning, this`failed
      ensures isNew == (port !in old(View()).ports)
      ensures old(failed) <= failed && status == AnswerOf(old(failed), failed)
      ensures !status.Success? ==> Memory() == old(Memory())
      ensures status.Success? ==>
        && Consistent(w) && Abstract(w) == old(View()).(ports := old(View()).ports + {port})
        && h in w.lists && listSlot in w.lists[h].free && id !in w.lists[h].data
        && port in w.ports.data && w.ports.data[port] == h && w.portOwning[h] == port
        && (isNew ==> w.lists[h].data == map[])
        && Memory() == Enlisted(w, h, id, listSlot)
        && w.lists.Keys - (if isNew then {h} else {}) == old(lists.Keys)
    {
      hide Consistent, Abstract;
      h, w, listSlot := 0, Memory(), 0;
      PortInMemory(w, port, id);
      TablesAreValid(w);
      isNew := port !in ports.data;
      if isNew {
        ghost var portSlot;
        status, h, portSlot, listSlot := OpenPort(id, port);
        if status.Success? {
          PortOpened(w, port, h, Empty(), portSlot);
          EnlistedOnNewPort(w, port, h, Empty(), portSlot, id, listSlot);
          w := WithPort(w, port, h, Empty(), portSlot);
        }
      } else {
        h := ports.data[port];
        var ok, list, slot := Insert(lists[h], id, ());
        if !ok {
          status := InvalidValue;
          return;
        }
        lists := lists[h := list];
        status, listSlot := Success, slot;
        assert Abstract(w).ports + {port} == Abstract(w).ports;
      }
    }

    method CreatePipe(pipe: Ptr, port: Port) returns (status: Status, pipeId: Id)
      requires Valid()
      modifies this
      ensures Valid()
      ensures pipeId == Fnv.GenerateId(pipe)
      ensures status == if pipeId in old(View()).pipes then InvalidValue else AnswerOf(old(failed), failed)
      ensures old(failed) <= failed && (pipeId in old(View()).pipes ==> failed == old(failed))
      ensures status.Success? ==> View() == PipesWorld.CreatePipe(old(View()), pipeId, pipe, port)
      ensures !status.Success? ==>
        && View() == old(View())
        && lists.Keys == old(lists.Keys) && entryTables.Keys == old(entryTables.Keys)
    {
      hide Consistent, Abstract;
      pipeId := Fnv.GenerateId(pipe);
      PipeInMemory(Memory(), pipeId);
      if pipeId in pipes.data {
        return InvalidValue, pipeId;
      }
      ghost var before := View();
      var h, isNew;
      ghost var w, listSlot;
      status, h, isNew, w, listSlot := Enlist(pipeId, port);
      if !status.Success? {
        return;
      }
      status := PublishPipe(pipe, pipeId, port, h, isNew, w, listSlot);
      assert before.ports + {port} + {port} == before.ports + {port};
      assert before.ports + {port} - (if isNew then {port} else {}) == before.ports;
    }

    /**
     During a flush the list of the port still names pipes that are gone. World `g` is the memory with those names
     taken off the list at address `h`.
     */
    ghost predicate Shadows(g: World, h: Handle)
      reads this
    {
      && Consistent(g) && h in g.lists && h in lists
      && g == World(pipes, entries, ports, lists[h := g.lists[h]], entryTables, pipeOwning, portOwning)
    }

    /** One round of the flush loop. */
    method DropPipe(p: Id, h: Handle, ghost g: World)
      requires Shadows(g, h) && p in g.pipes.data && g.pipes.data[p].pipesTable == h
      modifies this`pipes, this`entries, this`entryTables, this`pipeOwning
      ensures Shadows(WithoutPipe(g, p), h)
    {
      hide Consistent, Abstract;
      PipeInMemory(g, p);
      TablesAreValid(g);
      var info := pipes.data[p];
      EraseEntries(entryTables[info.entriesTable]);
      FreeEntriesTable(info.entriesTable);
      pipes := pipes.Remove(p);
      pipeOwning := pipeOwning - {info.entriesTable};
      PipeDestroyed(g, p);
      ListShrinks(lists, h, g.lists[h], g.lists[h].Remove(p));
    }

    method FlushPort(port: Port) returns (status: Status)
      requires Valid()
      modifies this`pipes, this`entries, this`ports, this`lists, this`entryTables, this`pipeOwning, this`portOwning
      ensures Valid()
      ensures status == (if port in old(View()).ports then Success else InvalidValue)
      ensures View() == if status.Success? then PipesWorld.FlushPort(old(View()), port) else old(View())
    {
      hide Consistent, Abstract;
      ghost var before := View();
      PortListed(Memory(), port);
      if port !in ports.data {
        return InvalidValue;
      }
      var h := ports.data[port];
      ghost var g, done: set<Id> := Memory(), {};
      assert lists[h := lists[h]] == lists;
      DestroyNothing(before);
      var todo := lists[h].data.Keys;
      while todo != {}
        invariant Shadows(g, h) && ports == old(ports) && lists == old(lists) && portOwning == old(portOwning)
        invariant g.lists[h].data.Keys == todo && done + todo == PipesOn(before.pipes, port) && done !! todo
        invariant Abstract(g) == DestroyPipes(before, done)
        decreases todo
      {
        var p := NextKey(todo);
        ListedPipe(g, h, p);
        DropPipe(p, h, g);
        PipeDestroyed(g, p);
        DestroyOneMore(before, done, p);
        g := WithoutPipe(g, p);
        todo, done := todo - {p}, done + {p};
      }
      PortInMemory(g, port, 0);
      assert g.lists[h].data == map[];
      PortClosed(g, port);
      TablesAreValid(g);
      FreeList(h);
      ports := ports.Remove(port);
      portOwning := portOwning - {h};
      assert lists == g.lists - {h};
      assert Memory() == WithoutPort(g, port);
      return Success;
    }

    /** pipes_manager_destroy. A table freed twice would violate the precondition of Free; none is left. */
    method Destroy()
      requires Valid()
      modifies this`lists, this`entryTables
      ensures lists == map[] && entryTables == map[]
    {
      hide Consistent, EntryTablesOwned, ListsOwned;
      TablesAreOwned(Memory());
      FreeEntriesTables();
      FreeLists();
    }

    method FreeEntriesTables()
      requires EntryTablesOwned(pipes.data, entryTables.Keys, pipeOwning)
      modifies this`entryTables
      ensures entryTables == map[]
    {
      var todo: set<Id> := pipes.data.Keys;
      while todo != {}
        invariant todo <= pipes.data.Keys
        invariant forall h :: h in entryTables <==> h in pipeOwning && pipeOwning[h] in todo
        decreases todo
      {
        var p := NextKey(todo);
        FreeEntriesTable(pipes.data[p].entriesTable);
        todo := todo - {p};
      }
      NoKey(entryTables.Keys);
      assert entryTables.Keys == {};
    }

    method FreeLists()
      requires ListsOwned(ports.data, lists.Keys, portOwning)
      modifies this`lists
      ensures lists == map[]
    {
      var known: set<Port> := ports.data.Keys;
      while known != {}
        invariant known <= ports.data.Keys
        invariant forall h :: h in lists <==> h in portOwning && portOwning[h] in known
        decreases known
      {
        var o := NextKey(known);
        FreeList(ports.data[o]);
        known := known - {o};
      }
      NoKey(lists.Keys);
      assert lists.Keys == {};
    }
  }

  // ---------------------------------------------------------------- whole runs

  datatype Op =
    | Create(pipe: Ptr, port: Port)
    | Add(entry: Ptr, pipeId: Id)
    | Remove(entryId: Id)
    | Destroy(pipeId: Id)
    | Flush(port: Port)

  /** What the flat specification makes of an operation that returned `ok`. */
  function Effect(f: Flat, op: Op, ok: bool): Flat {
    if !ok then f else
    match op
    case Create(pipe, port) => CreatePipe(f, Fnv.GenerateId(pipe), pipe, port)
    case Add(entry, pipeId) => AddEntry(f, Fnv.GenerateId(entry), pipeId, entry)
    case Remove(entryId) => RemoveEntry(f, entryId)
    case Destroy(pipeId) => DestroyPipes(f, {pipeId})
    case Flush(port) => FlushPort(f, port)
  }

  /** When an operation returns success; `hit` tells whether a call of the hash library failed on the way. */
  predicate Outcome(f: Flat, op: Op, hit: bool, ok: bool) {
    match op
    case Create(pipe, port) => ok <==> Fnv.GenerateId(pipe) !in f.pipes && !hit
    case Add(entry, pipeId) => ok <==> pipeId in f.pipes && Fnv.GenerateId(entry) !in f.entries && !hit
    case Remove(entryId) => ok <==> entryId in f.entries
    case Destroy(pipeId) => ok <==> pipeId in f.pipes
    case Flush(port) => ok <==> port in f.ports
  }

  /** An operation that adds an entry whose id is live already, and is let through. */
  predicate Duplicates(f: Flat, op: Op, ok: bool) {
    op.Add? && ok && Fnv.GenerateId(op.entry) in f.entries
  }

  /** The first `n` operations, as far as they succeeded. */
  function Replay(f: Flat, ops: seq<Op>, oks: seq<bool>, n: nat): Flat
    requires n <= |ops| && n <= |oks|
  {
    if n == 0 then f else Effect(Replay(f, ops, oks, n - 1), ops[n - 1], oks[n - 1])
  }

  predicate Allowed(f: Flat, ops: seq<Op>, hits: seq<bool>, oks: seq<bool>, n: nat)
    requires n <= |ops| && n <= |oks| && n <= |hits|
  {
    forall i :: 0 <= i < n ==> Outcome(Replay(f, ops, oks, i), ops[i], hits[i], oks[i])
  }

  lemma {:induction false} ReplayPrefix(f: Flat, ops: seq<Op>, oks: seq<bool>, ok: bool, n: nat)
    requires n <= |ops| && n <= |oks|
    ensures Replay(f, ops, oks + [ok], n) == Replay(f, ops, oks, n)
  {
    hide Effect;
    if n > 0 {
      ReplayPrefix(f, ops, oks, ok, n - 1);
    }
  }

  lemma AllowedPrefix(f: Flat, ops: seq<Op>, hits: seq<bool>, oks: seq<bool>, hit: bool, ok: bool)
    requires |oks| == |hits| < |ops| && Allowed(f, ops, hits, oks, |oks|)
    ensures Replay(f, ops, oks + [ok], |oks|) == Replay(f, ops, oks, |oks|)
    ensures Allowed(f, ops, hits + [hit], oks + [ok], |oks|)
  {
    hide Effect, Outcome, Replay;
    forall i | 0 <= i <= |oks|
      ensures Replay(f, ops, oks + [ok], i) == Replay(f, ops, oks, i)
    {
      ReplayPrefix(f, ops, oks, ok, i);
    }
  }

  /** The pieces of memory that pipes_manager_create allocates. */
  datatype Piece = ManagerStruct | PipeTable | EntryTable | PortTable

  method Allocate(granted: set<Piece>, live: set<Piece>, p: Piece) returns (ok: bool, more: set<Piece>)
    ensures ok <==> p in granted
    ensures more == if ok then live + {p} else live
  {
    ok := p in granted;
    more := if ok then live + {p} else live;
  }

  method Free(live: set<Piece>, p: Piece) returns (rest: set<Piece>)
    requires p in live
    ensures rest == live - {p}
  {
    rest := live - {p};
  }

  /**
   pipes_manager_create: four allocations, of which those in `granted` succeed. The manager is created if and only if all
   do; otherwise nothing stays allocated and nothing was freed that was not.
   */
  method CreateManager(granted: set<Piece>) returns (status: Status, m: PipesManager?, live: set<Piece>)
    ensures status == if ManagerStruct !in granted then NoMemory
                      else if PipeTable in granted && EntryTable in granted && PortTable in granted then Success
                      else DriverError
    ensures status.Success? <==> m != null
    ensures m != null ==> fresh(m) && m.Valid() && m.View() == Flat(map[], map[], {}) && m.failed == []
    ensures live == if status.Success? then {ManagerStruct, PipeTable, EntryTable, PortTable} else {}
  {
    var ok;
    m, live := null, {};
    ok, live := Allocate(granted, live, ManagerStruct);
    if !ok {
      return NoMemory, m, live;
    }
    status := DriverError;
    ok, live := Allocate(granted, live, PipeTable);
    if !ok {
      live := Free(live, ManagerStruct);
      return;
    }
    ok, live := Allocate(granted, live, EntryTable);
    if !ok {
      live := Free(live, PipeTable);
      live := Free(live, ManagerStruct);
      return;
    }
    ok, live := Allocate(granted, live, PortTable);
    if !ok {
      live := Free(live, PipeTable);
      live := Free(live, EntryTable);
      live := Free(live, ManagerStruct);
      return;
    }
    m := new PipesManager();
    status := Success;
  }

  /**
   One operation. The tables stay consistent, and the operation has the flat effect, if and only if it was not the
   accepted addition of an entry whose id is live.
   */
  method Perform(m: PipesManager, op: Op) returns (ok: bool, broken: bool, ghost hit: bool)
    requires m.Valid()
    modifies m
    ensures old(m.failed) <= m.failed && hit == (m.failed != old(m.failed))
    ensures broken == Duplicates(old(m.View()), op, ok) && m.Valid() == !broken
    ensures !broken ==> Outcome(old(m.View()), op, hit, ok) && m.View() == Effect(old(m.View()), op, ok)
  {
    hide Consistent, Abstract, Fnv.GenerateId;
    var status;
    broken := false;
    match op {
      case Create(pipe, port) =>
        var pipeId;
        status, pipeId := m.CreatePipe(pipe, port);
      case Add(entry, pipeId) =>
        var found, previous := m.GetEntry(Fnv.GenerateId(entry));
        var entryId;
        status, entryId := m.AddEntry(entry, pipeId);
        broken := found.Success? && status.Success?;
      case Remove(entryId) =>
        ghost var before := m.View();
        status := m.RemoveEntry(entryId);
        assert entryId !in before.entries ==> before.entries - {entryId} == before.entries;
      case Destroy(pipeId) =>
        DestroyNothing(m.View());
        status := m.DestroyPipe(pipeId);
      case Flush(port) =>
        status := m.FlushPort(port);
    }
    ok := status.Success?;
    hit := m.failed != old(m.failed);
  }

  /**
   Every run refines the flat specification: whatever operations are called and whichever insertions and allocations
   fail, each operation succeeds exactly if the flat specification lets it and no call failed on its way, the tables stay
   consistent and show the replay of those that did, up to the first addition of a live entry id that is let through.
   There, and only there, consistency ends.
   */
  method Run(ops: seq<Op>, granted: set<Piece>)
    returns (status: Status, m: PipesManager?, oks: seq<bool>, ghost hits: seq<bool>)
    ensures status.Success? <==> m != null
    ensures m != null <==> {ManagerStruct, PipeTable, EntryTable, PortTable} <= granted
    ensures |oks| == |hits| <= |ops| && (m == null ==> oks == [])
    ensures var start, n := Flat(map[], map[], {}), |oks|;
            m != null ==>
              && fresh(m) && (m.failed == [] <==> true !in hits)
              && (m.Valid() ==> n == |ops| && Allowed(start, ops, hits, oks, n) && m.View() == Replay(start, ops, oks, n))
              && (!m.Valid() ==> n > 0 && Allowed(start, ops, hits, oks, n - 1)
                                 && Duplicates(Replay(start, ops, oks, n - 1), ops[n - 1], oks[n - 1]))
  {
    hide Consistent, Abstract, Effect, Outcome, Duplicates, Allowed;
    oks, hits := [], [];
    var live;
    status, m, live := CreateManager(granted);
    if m == null {
      return;
    }
    ghost var start := Flat(map[], map[], {});
    NoneAllowed(start, ops);
    for n := 0 to |ops|
      invariant fresh(m) && m.Valid() && |oks| == |hits| == n
      invariant m.failed == [] <==> true !in hits
      invariant Allowed(start, ops, hits, oks, n) && m.View() == Replay(start, ops, oks, n)
    {
      ghost var hit;
      var ok, broken;
      ok, broken, hit := Perform(m, ops[n]);
      AllowedPrefix(start, ops, hits, oks, hit, ok);
      if !broken {
        AllowedMore(start, ops, hits + [hit], oks + [ok], n);
      }
      oks, hits := oks + [ok], hits + [hit];
      if broken {
        return;
      }
    }
  }

  lemma NoneAllowed(f: Flat, ops: seq<Op>)
    ensures Allowed(f, ops, [], [], 0) && Replay(f, ops, [], 0) == f
  {}

  lemma AllowedMore(f: Flat, ops: seq<Op>, hits: seq<bool>, oks: seq<bool>, n: nat)
    requires n < |ops| && n < |oks| && n < |hits| && Allowed(f, ops, hits, oks, n)
    requires Outcome(Replay(f, ops, oks, n), ops[n], hits[n], oks[n])
    ensures Allowed(f, ops, hits, oks, n + 1)
  {
    hide Effect, Outcome;
  }
}
