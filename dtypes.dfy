/** Element types: the TensorFlow `DataType` enum of the decoded protobuf and the host
    (tfjs) tensor types it is mapped to (saved_moddule.ts:20-22, 290-309). */
module Dtypes {
  import opened Wrappers
  import opened OrderedMaps

  /** The tfjs `DataType` strings 'float32', 'int32', 'bool', 'complex64' and 'string'. */
  datatype DataType = Float32 | Int32 | Bool | Complex64 | StringType {
    function Name(): string {
      match this
      case Float32 => "float32"
      case Int32 => "int32"
      case Bool => "bool"
      case Complex64 => "complex64"
      case StringType => "string"
    }
  }

  /** The TensorFlow tags that the switch accepts, with the host type for each. The three
      integer widths share 'int32': 64-bit values that do not fit are narrowed. */
  function TfTagsOf(d: DataType): set<string> {
    match d
    case Float32 => {"DT_FLOAT"}
    case Int32 => {"DT_INT64", "DT_INT32", "DT_UINT8"}
    case Bool => {"DT_BOOL"}
    case Complex64 => {"DT_COMPLEX64"}
    case StringType => {"DT_STRING"}
  }

  /** `mapTFDtypeToJSDtype`: a switch on the tag name with a throwing default. */
  function MapTFDtypeToJSDtype(tfDtype: string): (r: Result<DataType, Error>)
    ensures r.Err? ==> r.error == UnsupportedType(tfDtype)
  {
    if tfDtype == "DT_FLOAT" then Ok(Float32)
    else if tfDtype == "DT_INT64" || tfDtype == "DT_INT32" || tfDtype == "DT_UINT8" then Ok(Int32)
    else if tfDtype == "DT_BOOL" then Ok(Bool)
    else if tfDtype == "DT_COMPLEX64" then Ok(Complex64)
    else if tfDtype == "DT_STRING" then Ok(StringType)
    else Err(UnsupportedType(tfDtype))
  }

  /** The switch is the inverse of the table above: a tag maps to `d` exactly when it is
      one of `d`'s tags, and every tag outside the table is refused by name. */
  lemma MapTFDtypeMatchesTable(tfDtype: string, d: DataType)
    ensures MapTFDtypeToJSDtype(tfDtype) == Ok(d) <==> tfDtype in TfTagsOf(d)
    ensures MapTFDtypeToJSDtype(tfDtype).Err? <==>
              forall d' :: tfDtype !in TfTagsOf(d')
  {
    if MapTFDtypeToJSDtype(tfDtype).Err? {
      forall d' ensures tfDtype !in TfTagsOf(d') {
        match d'
        case Float32 =>
        case Int32 =>
        case Bool =>
        case Complex64 =>
        case StringType =>
      }
    } else {
      var e := MapTFDtypeToJSDtype(tfDtype).value;
      assert tfDtype in TfTagsOf(e);
    }
  }

  /** `DT_INT64`, `DT_INT32` and `DT_UINT8` all become 'int32'. */
  lemma IntegerWidthsCollapse()
    ensures MapTFDtypeToJSDtype("DT_INT64") == MapTFDtypeToJSDtype("DT_INT32")
                == MapTFDtypeToJSDtype("DT_UINT8") == Ok(Int32)
    ensures Int32.Name() == "int32"
  {
  }

  /** `getEnumKeyFromValue`: `Object.keys(object).find(key => object[key] === value)` over
      an enum object whose keys are listed in definition order. `None` is `undefined`. */
  function GetEnumKeyFromValue(enumObject: Entries<int>, value: int): (r: Option<string>)
    ensures r.None? <==> forall i :: 0 <= i < |enumObject| ==> enumObject[i].1 != value
    ensures r.Some? ==> exists i :: 0 <= i < |enumObject| && enumObject[i] == (r.value, value) &&
                                    forall j :: 0 <= j < i ==> enumObject[j].1 != value
  {
    if enumObject == [] then None
    else if enumObject[0].1 == value then Some(enumObject[0].0)
    else
      var r := GetEnumKeyFromValue(enumObject[1..], value);
      assert forall i :: 1 <= i < |enumObject| ==> enumObject[i] == enumObject[1..][i - 1];
      if r.Some? then
        var i :| 0 <= i < |enumObject[1..]| && enumObject[1..][i] == (r.value, value) &&
                 forall j :: 0 <= j < i ==> enumObject[1..][j].1 != value;
        assert enumObject[i + 1] == (r.value, value);
        r
      else r
  }

  /** The host type of a tensor whose protobuf `dtype` number is `code`, with the enum key
      that is stored as `tfDtype`. An unknown number yields `undefined`, which the switch
      rejects as "Unsupported tensor DataType: undefined". */
  function ResolveDtype(enumObject: Entries<int>, code: int): (r: Result<(DataType, string), Error>)
    ensures r.Ok? <==> exists i :: 0 <= i < |enumObject| && enumObject[i].1 == code &&
                                   MapTFDtypeToJSDtype(enumObject[i].0).Ok? &&
                                   forall j :: 0 <= j < i ==> enumObject[j].1 != code
    ensures r.Ok? ==> GetEnumKeyFromValue(enumObject, code) == Some(r.value.1) &&
                      MapTFDtypeToJSDtype(r.value.1) == Ok(r.value.0)
    ensures r.Err? ==> r.error.UnsupportedType?
  {
    match GetEnumKeyFromValue(enumObject, code)
    case None => Err(UnsupportedType("undefined"))
    case Some(key) =>
      var i :| 0 <= i < |enumObject| && enumObject[i] == (key, code) &&
               forall j :: 0 <= j < i ==> enumObject[j].1 != code;
      assert forall i' :: 0 <= i' < |enumObject| && enumObject[i'].1 == code && (forall j :: 0 <= j < i' ==> enumObject[j].1 != code) ==> i' == i;
      match MapTFDtypeToJSDtype(key)
      case Err(e) => Err(e)
      case Ok(d) => Ok((d, key))
  }
}
