// PacketGeneration: the packet generator's resolution of a board's packet
// descriptions against its measurement dictionary.  The JSON files are
// given as already parsed values: a measurement dictionary is the list under
// its "measurements" key, a packet the object with its "variables" list,
// and the measurement files of a board are their file names.
module PacketGeneration {
  import opened Wrappers

  /** An entry of a measurement dictionary. */
  datatype Measurement = Measurement(id: string, name: string, valueType: string)

  /** A variable of a packet, named by the id of a measurement. */
  datatype Variable = Variable(name: string)

  datatype Packet = Packet(id: int, name: string, packetType: string, variables: seq<Variable>)

  /** MeasurmentsDescription: the variable and the name and type found for it. */
  datatype MeasurementDescription = MeasurementDescription(id: string, name: string, valueType: string)

  /** PacketDescription: each variable is kept as a one-element list holding
      its name, next to its measurement description. */
  datatype PacketDescription = PacketDescription(id: int, name: string, packetType: string,
                                                 variables: seq<seq<string>>,
                                                 measurements: seq<MeasurementDescription>)

  const NotFound := "Measurement not found"

  /** Indexing the first character of an empty string. */
  const IndexError := "IndexError"

  /** The index of the first entry of ms[i..] whose id is the variable. */
  function FirstWithId(ms: seq<Measurement>, variable: string, i: nat): (r: Option<nat>)
    requires i <= |ms|
    ensures r.Some? ==> i <= r.value < |ms| && ms[r.value].id == variable
                        && forall j :: i <= j < r.value ==> ms[j].id != variable
    ensures r.None? ==> forall j :: i <= j < |ms| ==> ms[j].id != variable
    decreases |ms| - i
  {
    if i == |ms| then None
    else if ms[i].id == variable then Some(i)
    else FirstWithId(ms, variable, i + 1)
  }

  /** MeasurementSearch: the first entry whose id is the variable, none when
      no entry has it. */
  function MeasurementSearch(ms: seq<Measurement>, variable: string): (r: Option<Measurement>)
    ensures r.None? <==> forall j :: 0 <= j < |ms| ==> ms[j].id != variable
    ensures r.Some? ==> exists k :: 0 <= k < |ms| && ms[k] == r.value && ms[k].id == variable
                                    && forall j :: 0 <= j < k ==> ms[j].id != variable
  {
    match FirstWithId(ms, variable, 0)
    case None => None
    case Some(k) => Some(ms[k])
  }

  /** Adding entries after a match does not change what is found. */
  lemma SearchKeepsFirst(ms: seq<Measurement>, more: seq<Measurement>, variable: string)
    requires MeasurementSearch(ms, variable).Some?
    ensures MeasurementSearch(ms + more, variable) == MeasurementSearch(ms, variable)
  {
    FirstWithIdPrefix(ms, more, variable, 0);
  }

  lemma {:induction false} FirstWithIdPrefix(ms: seq<Measurement>, more: seq<Measurement>, variable: string, i: nat)
    requires i <= |ms| && FirstWithId(ms, variable, i).Some?
    ensures FirstWithId(ms + more, variable, i) == FirstWithId(ms, variable, i)
    decreases |ms| - i
  {
    assert (ms + more)[i] == ms[i];
    if ms[i].id != variable {
      FirstWithIdPrefix(ms, more, variable, i + 1);
    }
  }

  /** split('_')[0]: the text before the first underscore, all of it when
      there is none. */
  function Prefix(s: string): (r: string)
    ensures r <= s && '_' !in r
    ensures |r| < |s| ==> s[|r|] == '_'
  {
    if s == [] || s[0] == '_' then [] else [s[0]] + Prefix(s[1..])
  }

  /** A name joined to any suffix by an underscore splits back to the name. */
  lemma {:induction false} PrefixOfJoined(name: string, rest: string)
    requires '_' !in name
    ensures Prefix(name + "_" + rest) == name
  {
    if name != [] {
      assert (name + "_" + rest)[1..] == name[1..] + "_" + rest;
      PrefixOfJoined(name[1..], rest);
    }
  }

  /** The first segments of the packet file and the measurement file start
      with the same character. */
  predicate SameInitial(packet: string, file: string)
  {
    Prefix(packet) != [] && Prefix(file) != [] && Prefix(packet)[0] == Prefix(file)[0]
  }

  /** The search from files[i] on. */
  function FileSearchFrom(packet: string, files: seq<string>, i: nat): (r: Result<string>)
    requires i <= |files|
    ensures r.Success? ==> r.value in files
    ensures r.Failure? ==> r.error == IndexError
    ensures files == [] ==> r.Failure?
    ensures i < |files| && Prefix(packet) == [] ==> r.Failure?
    ensures files != [] && Prefix(packet) != [] && (forall k :: i <= k < |files| ==> Prefix(files[k]) != [])
            ==> r.Success?
    ensures forall k :: i <= k < |files| && SameInitial(packet, files[k])
                        && (forall j :: i <= j < k ==> Prefix(files[j]) != [] && !SameInitial(packet, files[j]))
                        ==> r == Success(files[k])
    ensures r.Success? && (forall k :: i <= k < |files| ==> !SameInitial(packet, files[k])) ==> r.value == files[0]
    decreases |files| - i
  {
    if i == |files| then
      if files == [] then Failure(IndexError) else Success(files[0])
    else
      var p := Prefix(packet);
      var m := Prefix(files[i]);
      if p == [] || m == [] then Failure(IndexError)
      else if p[0] == m[0] then Success(files[i])
      else FileSearchFrom(packet, files, i + 1)
  }

  /** MeasurementFileSearch: the first measurement file whose first segment
      starts like the packet file's, files[0] when none does; an empty list
      or an empty first segment met on the way is an indexing error. */
  function MeasurementFileSearch(packet: string, files: seq<string>): (r: Result<string>)
    ensures r.Success? ==> r.value in files
    ensures r.Failure? <==> files == [] || Prefix(packet) == []
                            || exists k :: 0 <= k < |files| && Prefix(files[k]) == []
                                           && forall j :: 0 <= j < k ==> !SameInitial(packet, files[j])
    ensures forall k :: 0 <= k < |files| && SameInitial(packet, files[k])
                        && (forall j :: 0 <= j < k ==> Prefix(files[j]) != [] && !SameInitial(packet, files[j]))
                        ==> r == Success(files[k])
    ensures r.Success? && (forall k :: 0 <= k < |files| ==> !SameInitial(packet, files[k])) ==> r.value == files[0]
  {
    FileSearchOutcome(packet, files, 0);
    FileSearchFrom(packet, files, 0)
  }

  /** The search fails exactly at an empty first segment met before a match. */
  lemma {:induction false} FileSearchOutcome(packet: string, files: seq<string>, i: nat)
    requires i <= |files|
    ensures FileSearchFrom(packet, files, i).Failure? <==>
            files == [] || (i < |files| && Prefix(packet) == [])
            || exists k :: i <= k < |files| && Prefix(files[k]) == []
                           && forall j :: i <= j < k ==> !SameInitial(packet, files[j])
    decreases |files| - i
  {
    if i < |files| && Prefix(packet) != [] && Prefix(files[i]) != [] && !SameInitial(packet, files[i]) {
      FileSearchOutcome(packet, files, i + 1);
      if i + 1 == |files| {
        assert files != [];
      }
    }
  }

  /** MeasurmentsDescription: the name and type of the first dictionary
      entry with the variable's id; "Measurement not found" when there is
      none. */
  function DescribeMeasurement(ms: seq<Measurement>, variable: string): (r: Result<MeasurementDescription>)
    ensures r.Failure? <==> forall j :: 0 <= j < |ms| ==> ms[j].id != variable
    ensures r.Failure? ==> r.error == NotFound
    ensures r.Success? ==> r.value.id == variable
                           && exists k :: 0 <= k < |ms| && ms[k].id == variable && r.value.name == ms[k].name
                                          && r.value.valueType == ms[k].valueType
                                          && forall j :: 0 <= j < k ==> ms[j].id != variable
  {
    match MeasurementSearch(ms, variable)
    case None => Failure(NotFound)
    case Some(m) => Success(MeasurementDescription(variable, m.name, m.valueType))
  }

  /** PacketDescription: the packet's id, name and type, and for each of its
      variables, in order, its name and its measurement description; the
      first variable without a measurement ends it with "Measurement not
      found". */
  method DescribePacket(packet: Packet, ms: seq<Measurement>) returns (r: Result<PacketDescription>)
    ensures r.Failure? <==> exists k :: 0 <= k < |packet.variables|
                                        && DescribeMeasurement(ms, packet.variables[k].name).Failure?
    ensures r.Failure? ==> r.error == NotFound
    ensures r.Success? ==>
              var d := r.value;
              d.id == packet.id && d.name == packet.name && d.packetType == packet.packetType
              && |d.variables| == |packet.variables| && |d.measurements| == |packet.variables|
              && forall k :: 0 <= k < |packet.variables| ==>
                   d.variables[k] == [packet.variables[k].name]
                   && DescribeMeasurement(ms, packet.variables[k].name) == Success(d.measurements[k])
  {
    var variables: seq<seq<string>> := [];
    var measurements: seq<MeasurementDescription> := [];
    var i := 0;
    while i < |packet.variables|
      invariant i <= |packet.variables| && |variables| == i && |measurements| == i
      invariant forall k :: 0 <= k < i ==>
                  variables[k] == [packet.variables[k].name]
                  && DescribeMeasurement(ms, packet.variables[k].name) == Success(measurements[k])
    {
      var name := packet.variables[i].name;
      variables := variables + [[name]];
      var m := DescribeMeasurement(ms, name);
      if m.Failure? {
        return Failure(m.error);
      }
      measurements := measurements + [m.value];
      i := i + 1;
    }
    r := Success(PacketDescription(packet.id, packet.name, packet.packetType, variables, measurements));
  }
}
