/** What a run of the reconciler records of itself, and the two answers read back off the record: whether
    it has settled, and whether it keeps its data. Each agrees with the answer the state itself gives,
    however the regions are spelled. */
module ReconcilerWorld {
  import opened Order
  import opened Reconciler
  import opened ReconcilerPass
  import opened Wrappers
  import W = World

  type Field = string

  const LOST := "lost"
  const WANTED := "wanted"
  const ROLE := "role"
  const PHASE := "phase"

  function RoleText(role: Role): string {
    match role
    case Primary => "primary"
    case Standby => "standby"
  }

  function PhaseText(phase: Phase): string {
    match phase
    case Provisioning => "provisioning"
    case CatchingUp => "catching up"
    case Ready => "ready"
  }

  // ---------------------------------------------------------------------------------------------
  // Fields

  function FieldFor(region: Region, ending: string): Field {
    region + "-" + ending
  }

  predicate EndsIn(text: string, ending: string) {
    |ending| <= |text| && text[|text| - |ending|..] == ending
  }

  function StripSuffix(text: string, ending: string): Option<string> {
    if EndsIn(text, ending) then Some(text[..|text| - |ending|]) else None
  }

  /** The region a field is about, if it is one of those with this ending. */
  function RegionOf(field: Field, ending: string): Option<Region> {
    match StripSuffix(field, ending)
    case None => None
    case Some(rest) => StripSuffix(rest, "-")
  }

  /** Reading a region out of a field undoes writing it in, whatever characters it is made of. */
  lemma RegionOfExact(field: Field, ending: string, region: Region)
    ensures RegionOf(field, ending) == Some(region) <==> field == FieldFor(region, ending)
  {
    if field == FieldFor(region, ending) {
      assert field[|field| - |ending|..] == ending;
      assert field[..|field| - |ending|] == region + "-";
    }
    if RegionOf(field, ending) == Some(region) {
      var rest := field[..|field| - |ending|];
      assert field == rest + ending && rest == region + "-";
    }
  }

  /** No field has two of the endings, or is the one that has none. */
  lemma EndingsDiffer(field: Field)
    ensures RegionOf(field, WANTED).Some? ==>
              RegionOf(field, ROLE).None? && RegionOf(field, PHASE).None? && field != LOST
    ensures RegionOf(field, ROLE).Some? ==> RegionOf(field, PHASE).None? && field != LOST
    ensures RegionOf(field, PHASE).Some? ==> field != LOST
  {
    var n := |field|;
    if EndsIn(field, WANTED) { assert field[n - 6..][5] == WANTED[5] == 'd'; }
    if EndsIn(field, ROLE) { assert field[n - 4..][3] == ROLE[3] == 'e' && field[n - 4..][2] == ROLE[2] == 'l'; }
    if EndsIn(field, PHASE) { assert field[n - 5..][4] == PHASE[4] == 'e' && field[n - 5..][3] == PHASE[3] == 's'; }
  }

  // ---------------------------------------------------------------------------------------------
  // The record

  function WantedFields(d: Desired, database: Name): set<Field> {
    if database in d
    then set region | region in d[database].standbys + {d[database].primary} :: FieldFor(region, WANTED)
    else {}
  }

  function ReplicaFields(s: State, database: Name, ending: string): set<Field> {
    set key | key in s.replicas && key.0 == database :: FieldFor(key.1, ending)
  }

  function FieldNames(d: Desired, s: State, database: Name): set<Field> {
    {LOST} + WantedFields(d, database) + ReplicaFields(s, database, ROLE) + ReplicaFields(s, database, PHASE)
  }

  /** What one field of a database's record says, whether or not it is there. */
  function FieldValue(d: Desired, s: State, database: Name, field: Field): W.Value {
    if RegionOf(field, WANTED).Some? then
      var key := (database, RegionOf(field, WANTED).value);
      W.Text(if Wanted(d, key) then RoleText(RoleWanted(d, key)) else "")
    else if RegionOf(field, ROLE).Some? then
      var key := (database, RegionOf(field, ROLE).value);
      W.Text(if key in s.replicas then RoleText(s.replicas[key].role) else "")
    else if RegionOf(field, PHASE).Some? then
      var key := (database, RegionOf(field, PHASE).value);
      W.Text(if key in s.replicas then PhaseText(s.replicas[key].phase) else "")
    else W.Flag(database in s.lost)
  }

  /** The whole record: a resource per database known or lost, with the fields and values above. */
  function Record(d: Desired, s: State): W.World {
    map database | database in Databases(d, s) + s.lost ::
      map field | field in FieldNames(d, s, database) :: FieldValue(d, s, database, field)
  }

  /** The fields a record has are exactly those of the places a database is wanted in or is. */
  lemma FieldThere(d: Desired, s: State, database: Name, region: Region)
    requires database in Record(d, s)
    ensures var fields, key := Record(d, s)[database], (database, region);
            && (FieldFor(region, WANTED) in fields <==> Wanted(d, key))
            && (FieldFor(region, ROLE) in fields <==> key in s.replicas)
            && (FieldFor(region, PHASE) in fields <==> key in s.replicas)
            && (Wanted(d, key) ==> fields[FieldFor(region, WANTED)] == W.Text(RoleText(RoleWanted(d, key))))
            && (key in s.replicas ==>
                  && fields[FieldFor(region, ROLE)] == W.Text(RoleText(s.replicas[key].role))
                  && fields[FieldFor(region, PHASE)] == W.Text(PhaseText(s.replicas[key].phase)))
  {
    FieldThereFor(d, s, database, region, WANTED);
    FieldThereFor(d, s, database, region, ROLE);
    FieldThereFor(d, s, database, region, PHASE);
  }

  lemma FieldThereFor(d: Desired, s: State, database: Name, region: Region, ending: string)
    requires ending == WANTED || ending == ROLE || ending == PHASE
    ensures var key := (database, region);
            && RegionOf(FieldFor(region, ending), ending) == Some(region)
            && RegionOf(FieldFor(region, ending), if ending == WANTED then ROLE else WANTED).None?
            && RegionOf(FieldFor(region, ending), if ending == PHASE then ROLE else PHASE).None?
            && (FieldFor(region, ending) in FieldNames(d, s, database)
                <==> if ending == WANTED then Wanted(d, key) else key in s.replicas)
  {
    var field := FieldFor(region, ending);
    RegionOfExact(field, ending, region);
    EndingsDiffer(field);
    WantedFieldOf(d, database, field);
    ReplicaFieldOf(s, database, field, ROLE);
    ReplicaFieldOf(s, database, field, PHASE);
    hide RegionOf, FieldFor, WantedFields, ReplicaFields;
    assert field != LOST;
  }

  lemma WantedFieldOf(d: Desired, database: Name, field: Field)
    ensures field in WantedFields(d, database) <==>
              RegionOf(field, WANTED).Some? && Wanted(d, (database, RegionOf(field, WANTED).value))
  {
    hide RegionOf, FieldFor;
    if field in WantedFields(d, database) {
      var r :| r in d[database].standbys + {d[database].primary} && field == FieldFor(r, WANTED);
      RegionOfExact(field, WANTED, r);
    }
    if RegionOf(field, WANTED).Some? {
      RegionOfExact(field, WANTED, RegionOf(field, WANTED).value);
    }
  }

  lemma ReplicaFieldOf(s: State, database: Name, field: Field, ending: string)
    ensures field in ReplicaFields(s, database, ending) <==>
              RegionOf(field, ending).Some? && (database, RegionOf(field, ending).value) in s.replicas
  {
    hide RegionOf, FieldFor;
    if field in ReplicaFields(s, database, ending) {
      var key :| key in s.replicas && key.0 == database && field == FieldFor(key.1, ending);
      RegionOfExact(field, ending, key.1);
    }
    if RegionOf(field, ending).Some? {
      var key := (database, RegionOf(field, ending).value);
      RegionOfExact(field, ending, key.1);
      if key in s.replicas { assert field == FieldFor(key.1, ending); }
    }
  }

  // ---------------------------------------------------------------------------------------------
  // The answers read back off a record

  /** The field of `fields` for `region` with this ending, if it has one: found by looking at each. */
  function Find(names: seq<Field>, fields: W.Resource, region: Region, ending: string): Option<W.Value>
    requires forall name :: name in names ==> name in fields
  {
    if names == [] then None
    else if RegionOf(names[0], ending) == Some(region) then Some(fields[names[0]])
    else Find(names[1..], fields, region, ending)
  }

  function RegionField(fields: W.Resource, region: Region, ending: string): Option<W.Value> {
    Find(Sorted(fields.Keys), fields, region, ending)
  }

  lemma {:induction false} FindExact(names: seq<Field>, fields: W.Resource, region: Region, ending: string)
    requires forall name :: name in names ==> name in fields
    ensures Find(names, fields, region, ending)
            == if FieldFor(region, ending) in names then Some(fields[FieldFor(region, ending)]) else None
  {
    if names != [] {
      RegionOfExact(names[0], ending, region);
      FindExact(names[1..], fields, region, ending);
      assert forall name :: name in names <==> name == names[0] || name in names[1..];
    }
  }

  /** Looking at each field finds the one of that name. */
  lemma RegionFieldExact(fields: W.Resource, region: Region, ending: string)
    ensures RegionField(fields, region, ending)
            == if FieldFor(region, ending) in fields then Some(fields[FieldFor(region, ending)]) else None
  {
    FindExact(Sorted(fields.Keys), fields, region, ending);
  }

  predicate SettledFor(fields: W.Resource) {
    && (forall field :: field in fields && RegionOf(field, WANTED).Some? ==>
          var region := RegionOf(field, WANTED).value;
          && RegionField(fields, region, ROLE) == Some(fields[field])
          && RegionField(fields, region, PHASE) == Some(W.Text(PhaseText(Ready))))
    && (forall field :: field in fields && RegionOf(field, ROLE).Some? ==>
          RegionField(fields, RegionOf(field, ROLE).value, WANTED).Some?)
  }

  /** Every resource has lost nothing it wants and shows, region by region, the roles it wants, ready. */
  predicate Settled(w: W.World) {
    forall database :: database in w ==> SettledFor(w[database])
  }

  /** No resource both says lost and has a field for a place wanted. */
  ghost predicate KeepsItsData(w: W.World) {
    forall database :: database in w ==>
      !SaysLost(w[database]) || !SaysWanted(w[database])
  }

  lemma RoleTextTells(a: Role, b: Role)
    requires RoleText(a) == RoleText(b)
    ensures a == b
  {
    assert RoleText(a)[0] == RoleText(b)[0];
  }

  lemma PhaseTextTells(a: Phase, b: Phase)
    requires PhaseText(a) == PhaseText(b)
    ensures a == b
  {
    assert PhaseText(a)[0] == PhaseText(b)[0];
  }

  lemma SettledForIff(d: Desired, s: State, database: Name)
    requires database in Record(d, s)
    ensures SettledFor(Record(d, s)[database]) <==> InPlace(d, s, database)
  {
    hide Record, RegionField, FieldFor, Wanted;
    var fields := Record(d, s)[database];
    if SettledFor(fields) {
      hide SettledFor;
      forall key: Key | key.0 == database
        ensures key in s.replicas <==> Wanted(d, key)
        ensures Wanted(d, key) ==> s.replicas[key] == Replica(RoleWanted(d, key), Ready)
      {
        SettledPlace(d, s, key);
      }
    }
    if InPlace(d, s, database) {
      hide InPlace;
      forall field | field in fields && RegionOf(field, WANTED).Some?
        ensures var region := RegionOf(field, WANTED).value;
                && RegionField(fields, region, ROLE) == Some(fields[field])
                && RegionField(fields, region, PHASE) == Some(W.Text(PhaseText(Ready)))
      {
        PlaceSettled(d, s, (database, RegionOf(field, WANTED).value), field);
      }
      forall field | field in fields && RegionOf(field, ROLE).Some?
        ensures RegionField(fields, RegionOf(field, ROLE).value, WANTED).Some?
      {
        PlaceWanted(d, s, (database, RegionOf(field, ROLE).value), field);
      }
    }
  }

  lemma PlaceWanted(d: Desired, s: State, key: Key, field: Field)
    requires key.0 in Record(d, s) && InPlace(d, s, key.0)
    requires field in Record(d, s)[key.0] && RegionOf(field, ROLE) == Some(key.1)
    ensures RegionField(Record(d, s)[key.0], key.1, WANTED).Some?
  {
    hide Record, RegionField, FieldFor, RegionOf, Wanted;
    assert key == (key.0, key.1);
    RegionOfExact(field, ROLE, key.1);
    FieldThere(d, s, key.0, key.1);
    RegionFieldExact(Record(d, s)[key.0], key.1, WANTED);
  }

  lemma SettledPlace(d: Desired, s: State, key: Key)
    requires key.0 in Record(d, s) && SettledFor(Record(d, s)[key.0])
    ensures key in s.replicas <==> Wanted(d, key)
    ensures Wanted(d, key) ==> s.replicas[key] == Replica(RoleWanted(d, key), Ready)
  {
    hide Record, RegionField, FieldFor, RegionOf, Wanted;
    var fields, region := Record(d, s)[key.0], key.1;
    assert key == (key.0, region);
    FieldThere(d, s, key.0, region);
    RegionFieldExact(fields, region, ROLE);
    RegionFieldExact(fields, region, PHASE);
    RegionFieldExact(fields, region, WANTED);
    RegionOfExact(FieldFor(region, WANTED), WANTED, region);
    RegionOfExact(FieldFor(region, ROLE), ROLE, region);
    if Wanted(d, key) && key in s.replicas {
      RoleTextTells(RoleWanted(d, key), s.replicas[key].role);
      PhaseTextTells(Ready, s.replicas[key].phase);
    }
  }

  lemma PlaceSettled(d: Desired, s: State, key: Key, field: Field)
    requires key.0 in Record(d, s) && InPlace(d, s, key.0)
    requires field in Record(d, s)[key.0] && RegionOf(field, WANTED) == Some(key.1)
    ensures var fields := Record(d, s)[key.0];
            && RegionField(fields, key.1, ROLE) == Some(fields[field])
            && RegionField(fields, key.1, PHASE) == Some(W.Text(PhaseText(Ready)))
  {
    var fields := Record(d, s)[key.0];
    assert key == (key.0, key.1);
    RegionOfExact(field, WANTED, key.1);
    FieldThere(d, s, key.0, key.1);
    RegionFieldExact(fields, key.1, ROLE);
    RegionFieldExact(fields, key.1, PHASE);
  }

  /** The record says it has settled exactly when the state is what was wanted. */
  lemma SettledIffConverged(d: Desired, s: State)
    ensures Settled(Record(d, s)) <==> Converged(d, s)
  {
    hide SettledFor, InPlace;
    forall database ensures database in Record(d, s) ==> (SettledFor(Record(d, s)[database]) <==> InPlace(d, s, database))
    {
      if database in Record(d, s) { SettledForIff(d, s, database); }
    }
    forall database ensures database !in Record(d, s) ==> InPlace(d, s, database) {
      if database !in Record(d, s) { Absent(d, s, database); }
    }
  }

  lemma Absent(d: Desired, s: State, database: Name)
    requires database !in Record(d, s)
    ensures InPlace(d, s, database)
  {
    forall key: Key | key.0 == database ensures key !in s.replicas && !Wanted(d, key) {
      assert key in s.replicas ==> key.0 in Databases(d, s);
    }
  }

  ghost predicate SaysLost(fields: W.Resource) {
    exists field :: field in fields && field == LOST && fields[field] == W.Flag(true)
  }

  ghost predicate SaysWanted(fields: W.Resource) {
    exists field :: field in fields && RegionOf(field, WANTED).Some?
  }

  /** The record says it keeps its data exactly when no database that is wanted is lost. */
  lemma KeepsItsDataIffNothingLost(d: Desired, s: State)
    ensures KeepsItsData(Record(d, s)) <==> forall database :: database in d ==> database !in s.lost
  {
    hide SaysLost, SaysWanted, FieldNames, FieldValue, Wanted;
    forall database | database in Record(d, s)
      ensures SaysWanted(Record(d, s)[database]) <==> database in d
      ensures SaysLost(Record(d, s)[database]) <==> database in s.lost
    {
      WantedIffField(d, s, database);
      LostIffFlag(d, s, database);
    }
    forall database | database in d ensures database in Record(d, s) {}
  }

  lemma WantedIffField(d: Desired, s: State, database: Name)
    requires database in Record(d, s)
    ensures SaysWanted(Record(d, s)[database]) <==> database in d
  {
    if database in d {
      var region := d[database].primary;
      FieldThere(d, s, database, region);
      RegionOfExact(FieldFor(region, WANTED), WANTED, region);
    }
    if field :| field in Record(d, s)[database] && RegionOf(field, WANTED).Some? {
      var region := RegionOf(field, WANTED).value;
      RegionOfExact(field, WANTED, region);
      FieldThere(d, s, database, region);
    }
  }

  lemma LostIffFlag(d: Desired, s: State, database: Name)
    requires database in Record(d, s)
    ensures SaysLost(Record(d, s)[database]) <==> database in s.lost
  {
    EndingsDiffer(LOST);
    LostHasNoEnding();
    assert LOST in Record(d, s)[database];
  }

  lemma LostHasNoEnding()
    ensures RegionOf(LOST, WANTED).None? && RegionOf(LOST, ROLE).None? && RegionOf(LOST, PHASE).None?
  {
    EndingsDiffer(LOST);
  }

  // ---------------------------------------------------------------------------------------------
  // Writing the record, a field at a time

  /** One field of one database's record. */
  type Fact = (Name, Field)

  function NamesIn(facts: set<Fact>): set<Name> {
    set f: Fact | f in facts :: f.0
  }

  function FieldsIn(facts: set<Fact>, database: Name): set<Field> {
    set f: Fact | f in facts && f.0 == database :: f.1
  }

  lemma InFacts(facts: set<Fact>, database: Name, field: Field)
    ensures field in FieldsIn(facts, database) <==> (database, field) in facts
    ensures (database, field) in facts ==> database in NamesIn(facts)
    ensures database !in NamesIn(facts) ==> FieldsIn(facts, database) == {}
  {
    if (database, field) in facts { var f: Fact := (database, field); assert f in facts && f.0 == database && f.1 == field; }
    if fl :| fl in FieldsIn(facts, database) {
      var f: Fact :| f in facts && f.0 == database && f.1 == fl;
      assert f.0 in NamesIn(facts);
    }
  }

  lemma OneMoreFact(facts: set<Fact>, database: Name, field: Field)
    ensures NamesIn(facts + {(database, field)}) == NamesIn(facts) + {database}
    ensures FieldsIn(facts + {(database, field)}, database) == FieldsIn(facts, database) + {field}
    ensures forall other :: other != database ==> FieldsIn(facts + {(database, field)}, other) == FieldsIn(facts, other)
  {
    var f: Fact := (database, field);
    assert f in facts + {f};
  }

  /** A database's resource with these fields beside its being lost or not. */
  function ResourceOf(d: Desired, s: State, database: Name, fields: set<Field>): W.Resource {
    map field | field in {LOST} + fields :: FieldValue(d, s, database, field)
  }

  /** What has been written once these fields are, and these databases for being lost alone. */
  function Written(d: Desired, s: State, facts: set<Fact>, alone: set<Name>): W.World {
    map database | database in NamesIn(facts) + alone :: ResourceOf(d, s, database, FieldsIn(facts, database))
  }

  /** `w` with one more field, in a resource begun with whether its database is lost. */
  function Put(w: W.World, s: State, database: Name, field: Field, value: W.Value): W.World {
    var resource := if database in w then w[database] else map[LOST := W.Flag(database in s.lost)];
    w[database := resource[field := value]]
  }

  lemma OneMoreField(d: Desired, s: State, database: Name, fields: set<Field>, field: Field)
    ensures ResourceOf(d, s, database, fields + {field})
            == ResourceOf(d, s, database, fields)[field := FieldValue(d, s, database, field)]
    ensures ResourceOf(d, s, database, {}) == map[LOST := W.Flag(database in s.lost)]
  {
    LostValue(d, s, database);
    hide FieldValue;
  }

  lemma PutWrites(d: Desired, s: State, facts: set<Fact>, database: Name, field: Field)
    ensures Put(Written(d, s, facts, {}), s, database, field, FieldValue(d, s, database, field))
            == Written(d, s, facts + {(database, field)}, {})
  {
    hide FieldValue, RegionOf, NamesIn, FieldsIn, ResourceOf;
    OneMoreFact(facts, database, field);
    InFacts(facts, database, field);
    OneMoreField(d, s, database, FieldsIn(facts, database), field);
  }

  lemma LostValue(d: Desired, s: State, database: Name)
    ensures FieldValue(d, s, database, LOST) == W.Flag(database in s.lost)
  {
    LostHasNoEnding();
  }

  function WantedFacts(keys: set<Key>): set<Fact> {
    set key: Key | key in keys :: (key.0, FieldFor(key.1, WANTED))
  }

  function ReplicaFacts(keys: set<Key>): set<Fact> {
    (set key: Key | key in keys :: (key.0, FieldFor(key.1, ROLE)))
    + set key: Key | key in keys :: (key.0, FieldFor(key.1, PHASE))
  }

  function WantedKeys(d: Desired): set<Key> {
    set database, region | database in d && region in d[database].standbys + {d[database].primary} :: (database, region)
  }

  lemma ValueFor(d: Desired, s: State, key: Key)
    ensures Wanted(d, key) ==>
              FieldValue(d, s, key.0, FieldFor(key.1, WANTED)) == W.Text(RoleText(RoleWanted(d, key)))
    ensures key in s.replicas ==>
              && FieldValue(d, s, key.0, FieldFor(key.1, ROLE)) == W.Text(RoleText(s.replicas[key].role))
              && FieldValue(d, s, key.0, FieldFor(key.1, PHASE)) == W.Text(PhaseText(s.replicas[key].phase))
  {
    assert key == (key.0, key.1);
    RegionOfExact(FieldFor(key.1, WANTED), WANTED, key.1);
    RegionOfExact(FieldFor(key.1, ROLE), ROLE, key.1);
    RegionOfExact(FieldFor(key.1, PHASE), PHASE, key.1);
    EndingsDiffer(FieldFor(key.1, ROLE));
    EndingsDiffer(FieldFor(key.1, PHASE));
  }

  /** Writes a field for each place wanted. */
  method WriteWanted(d: Desired, s: State) returns (w: W.World)
    ensures w == Written(d, s, WantedFacts(WantedKeys(d)), {})
  {
    hide FieldValue, Written, Put, Wanted, FieldFor;
    w := map[];
    var wanted, todo := WantedKeys(d), WantedKeys(d);
    NothingWritten(d, s);
    assert wanted - todo == {} && WantedFacts({}) == {};
    while todo != {}
      invariant todo <= wanted && w == Written(d, s, WantedFacts(wanted - todo), {})
      decreases |todo|
    {
      var key: Key :| key in todo;
      ghost var facts := WantedFacts(wanted - todo);
      WantedKey(d, key);
      ValueFor(d, s, key);
      PutWrites(d, s, facts, key.0, FieldFor(key.1, WANTED));
      w := Put(w, s, key.0, FieldFor(key.1, WANTED), W.Text(RoleText(RoleWanted(d, key))));
      assert wanted - (todo - {key}) == (wanted - todo) + {key};
      WantedFactsMore(wanted - todo, key);
      todo := todo - {key};
    }
    assert wanted - todo == wanted;
  }

  /** Writes two fields for each replica, onto what is already written. */
  method WriteReplicas(d: Desired, s: State, written: W.World, ghost facts: set<Fact>) returns (w: W.World)
    requires written == Written(d, s, facts, {})
    ensures w == Written(d, s, facts + ReplicaFacts(s.replicas.Keys), {})
  {
    hide FieldValue, Written, Put, Wanted, FieldFor;
    w := written;
    var left := s.replicas.Keys;
    assert s.replicas.Keys - left == {} && facts + ReplicaFacts({}) == facts;
    while left != {}
      invariant left <= s.replicas.Keys && w == Written(d, s, facts + ReplicaFacts(s.replicas.Keys - left), {})
      decreases |left|
    {
      var key: Key :| key in left;
      ghost var done := facts + ReplicaFacts(s.replicas.Keys - left);
      ghost var role: Fact := (key.0, FieldFor(key.1, ROLE));
      ghost var phase: Fact := (key.0, FieldFor(key.1, PHASE));
      ValueFor(d, s, key);
      PutWrites(d, s, done, key.0, FieldFor(key.1, ROLE));
      w := Put(w, s, key.0, FieldFor(key.1, ROLE), W.Text(RoleText(s.replicas[key].role)));
      PutWrites(d, s, done + {role}, key.0, FieldFor(key.1, PHASE));
      w := Put(w, s, key.0, FieldFor(key.1, PHASE), W.Text(PhaseText(s.replicas[key].phase)));
      assert s.replicas.Keys - (left - {key}) == (s.replicas.Keys - left) + {key};
      ReplicaFactsMore(facts, s.replicas.Keys - left, key);
      left := left - {key};
    }
    assert s.replicas.Keys - left == s.replicas.Keys;
  }

  lemma WantedFactsMore(keys: set<Key>, key: Key)
    ensures WantedFacts(keys + {key}) == WantedFacts(keys) + {(key.0, FieldFor(key.1, WANTED))}
  {
    hide FieldFor;
    assert key in keys + {key};
  }

  lemma ReplicaFactsMore(facts: set<Fact>, keys: set<Key>, key: Key)
    ensures facts + ReplicaFacts(keys + {key})
            == facts + ReplicaFacts(keys) + {(key.0, FieldFor(key.1, ROLE))} + {(key.0, FieldFor(key.1, PHASE))}
  {
    hide FieldFor;
    assert key in keys + {key};
  }

  /** The record built field by field: first the places wanted, then the replicas, then the lost databases that
      have no resource yet. */
  method WriteRecord(d: Desired, s: State) returns (w: W.World)
    ensures w == Record(d, s)
  {
    hide Written, Record, WantedFacts, ReplicaFacts, WantedKeys;
    w := WriteWanted(d, s);
    ghost var facts := WantedFacts(WantedKeys(d)) + ReplicaFacts(s.replicas.Keys);
    w := WriteReplicas(d, s, w, WantedFacts(WantedKeys(d)));
    ghost var alone: set<Name> := {};
    var lost := s.lost;
    while lost != {}
      invariant lost <= s.lost && w == Written(d, s, facts, alone)
      invariant alone <= s.lost - lost && forall name :: name in s.lost - lost ==> name in w
      decreases |lost|
    {
      var name :| name in lost;
      if name !in w {
        LostAlone(d, s, facts, alone, name);
        w := w[name := map[LOST := W.Flag(true)]];
        alone := alone + {name};
      }
      lost := lost - {name};
    }
    AllWritten(d, s, alone, w);
  }

  lemma NothingWritten(d: Desired, s: State)
    ensures Written(d, s, {}, {}) == map[]
  {}

  lemma WantedKey(d: Desired, key: Key)
    ensures key in WantedKeys(d) <==> Wanted(d, key)
  {
    assert key == (key.0, key.1);
  }

  lemma LostAlone(d: Desired, s: State, facts: set<Fact>, alone: set<Name>, name: Name)
    requires name !in Written(d, s, facts, alone) && name in s.lost
    ensures Written(d, s, facts, alone + {name})
            == Written(d, s, facts, alone)[name := map[LOST := W.Flag(true)]]
  {
    hide FieldValue, ResourceOf, NamesIn, FieldsIn;
    InFacts(facts, name, LOST);
    OneMoreField(d, s, name, {}, LOST);
  }

  lemma AllWritten(d: Desired, s: State, alone: set<Name>, w: W.World)
    requires alone <= s.lost
    requires w == Written(d, s, WantedFacts(WantedKeys(d)) + ReplicaFacts(s.replicas.Keys), alone)
    requires forall name :: name in s.lost ==> name in w
    ensures w == Record(d, s)
  {
    hide FieldValue, RegionOf, FieldFor, WantedFacts, ReplicaFacts, WantedKeys, NamesIn, FieldsIn, FieldNames, Databases;
    var facts := WantedFacts(WantedKeys(d)) + ReplicaFacts(s.replicas.Keys);
    FactsNames(d, s);
    forall database | database in w || database in Record(d, s)
      ensures database in w && database in Record(d, s) && w[database] == Record(d, s)[database]
    {
      FactsFields(d, s, database);
    }
  }

  lemma FactsNames(d: Desired, s: State)
    ensures NamesIn(WantedFacts(WantedKeys(d)) + ReplicaFacts(s.replicas.Keys)) == Databases(d, s)
  {
    hide FieldFor;
    var facts := WantedFacts(WantedKeys(d)) + ReplicaFacts(s.replicas.Keys);
    forall database | database in Databases(d, s) ensures database in NamesIn(facts) {
      if database in d {
        var key := (database, d[database].primary);
        assert key in WantedKeys(d);
        InFacts(facts, database, FieldFor(key.1, WANTED));
      } else {
        var key :| key in s.replicas && key.0 == database;
        InFacts(facts, database, FieldFor(key.1, ROLE));
      }
    }
    forall database | database in NamesIn(facts) ensures database in Databases(d, s) {
      var f: Fact :| f in facts && f.0 == database;
    }
  }

  /** The fields written of a database are the ones its record has. */
  lemma FactsFields(d: Desired, s: State, database: Name)
    ensures {LOST} + FieldsIn(WantedFacts(WantedKeys(d)) + ReplicaFacts(s.replicas.Keys), database)
            == FieldNames(d, s, database)
  {
    hide FieldFor;
    var facts := WantedFacts(WantedKeys(d)) + ReplicaFacts(s.replicas.Keys);
    forall field ensures field in FieldsIn(facts, database) <==> field in FieldNames(d, s, database) - {LOST} || (database, field) in facts {
      InFacts(facts, database, field);
      FieldWritten(d, s, database, field);
    }
    forall field ensures (database, field) in facts ==> field in FieldNames(d, s, database) {
      FieldWritten(d, s, database, field);
    }
  }

  lemma FieldWritten(d: Desired, s: State, database: Name, field: Field)
    ensures var facts := WantedFacts(WantedKeys(d)) + ReplicaFacts(s.replicas.Keys);
            && ((database, field) in facts ==> field in FieldNames(d, s, database))
            && (field in FieldNames(d, s, database) && field != LOST ==> (database, field) in facts)
  {
    hide FieldFor;
    if field in WantedFields(d, database) {
      var region :| region in d[database].standbys + {d[database].primary} && field == FieldFor(region, WANTED);
      assert (database, region) in WantedKeys(d);
    }
  }
}
