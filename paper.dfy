/** The backend's paper record, its dictionary form for JSON, and the text the
    clustering algorithms read from it. */
module PaperRecord {
  import opened Wrappers
  import Text

  datatype Paper = Paper(
    id: string,
    title: string,
    authors: seq<string>,
    abstractText: string,
    keywords: seq<string>,
    year: int,
    venue: string,
    citations: int,
    clusterId: Option<int>,
    clusterName: Option<string>)

  /** The dataclass constructor: citations default to 0, the cluster fields to None. */
  function NewPaper(id: string, title: string, authors: seq<string>, abstractText: string,
                    keywords: seq<string>, year: int, venue: string,
                    citations: int := 0, clusterId: Option<int> := None,
                    clusterName: Option<string> := None): (p: Paper)
    ensures p.id == id && p.title == title && p.authors == authors && p.abstractText == abstractText
    ensures p.keywords == keywords && p.year == year && p.venue == venue
    ensures p.citations == citations && p.clusterId == clusterId && p.clusterName == clusterName
  {
    Paper(id, title, authors, abstractText, keywords, year, venue, citations, clusterId, clusterName)
  }

  lemma ConstructorDefaults(id: string, title: string, authors: seq<string>, abstractText: string,
                            keywords: seq<string>, year: int, venue: string)
    ensures var p := NewPaper(id, title, authors, abstractText, keywords, year, venue);
            p.citations == 0 && p.clusterId == None && p.clusterName == None
  {
  }

  /** `p.cluster_id == id` in Python and `p.cluster_id === id` in
      JavaScript: a paper without a cluster never matches. */
  function InCluster(id: int): Paper -> bool {
    (p: Paper) => p.clusterId == Some(id)
  }

  /** A JSON value as it appears in a paper's dictionary. */
  datatype Value = Str(s: string) | Int(i: int) | StrList(items: seq<string>) | Null

  type Dict = map<string, Value>

  const FieldKeys: set<string> :=
    {"id", "title", "authors", "abstract", "keywords", "year", "venue",
     "citations", "cluster_id", "cluster_name"}

  function OptionalInt(v: Option<int>): Value {
    match v
    case Some(i) => Int(i)
    case None => Null
  }

  function OptionalStr(v: Option<string>): Value {
    match v
    case Some(s) => Str(s)
    case None => Null
  }

  /** Paper.to_dict: exactly the ten field names, each mapped to its field. */
  function ToDict(p: Paper): (d: Dict)
    ensures d.Keys == FieldKeys
    ensures d["id"] == Str(p.id) && d["title"] == Str(p.title)
    ensures d["authors"] == StrList(p.authors) && d["abstract"] == Str(p.abstractText)
    ensures d["keywords"] == StrList(p.keywords) && d["year"] == Int(p.year)
    ensures d["venue"] == Str(p.venue) && d["citations"] == Int(p.citations)
    ensures d["cluster_id"] == OptionalInt(p.clusterId)
    ensures d["cluster_name"] == OptionalStr(p.clusterName)
  {
    map["id" := Str(p.id), "title" := Str(p.title), "authors" := StrList(p.authors),
        "abstract" := Str(p.abstractText), "keywords" := StrList(p.keywords),
        "year" := Int(p.year), "venue" := Str(p.venue), "citations" := Int(p.citations),
        "cluster_id" := OptionalInt(p.clusterId), "cluster_name" := OptionalStr(p.clusterName)]
  }

  /** Why a dictionary is not a paper: a required key is missing (Python's
      KeyError), or a value has a type the field cannot hold. */
  datatype DictError = MissingKey(key: string) | WrongType(key: string)

  function RequiredStr(d: Dict, key: string): Result<string, DictError> {
    if key !in d then Err(MissingKey(key))
    else match d[key]
      case Str(s) => Ok(s)
      case _ => Err(WrongType(key))
  }

  function RequiredList(d: Dict, key: string): Result<seq<string>, DictError> {
    if key !in d then Err(MissingKey(key))
    else match d[key]
      case StrList(items) => Ok(items)
      case _ => Err(WrongType(key))
  }

  function RequiredInt(d: Dict, key: string): Result<int, DictError> {
    if key !in d then Err(MissingKey(key))
    else match d[key]
      case Int(i) => Ok(i)
      case _ => Err(WrongType(key))
  }

  /** `data.get(key, default)` for an integer field. */
  function IntOr(d: Dict, key: string, default: int): Result<int, DictError> {
    if key !in d then Ok(default)
    else match d[key]
      case Int(i) => Ok(i)
      case _ => Err(WrongType(key))
  }

  /** `data.get(key)` for a nullable integer field. */
  function NullableInt(d: Dict, key: string): Result<Option<int>, DictError> {
    if key !in d then Ok(None)
    else match d[key]
      case Int(i) => Ok(Some(i))
      case Null => Ok(None)
      case _ => Err(WrongType(key))
  }

  /** `data.get(key)` for a nullable string field. */
  function NullableStr(d: Dict, key: string): Result<Option<string>, DictError> {
    if key !in d then Ok(None)
    else match d[key]
      case Str(s) => Ok(Some(s))
      case Null => Ok(None)
      case _ => Err(WrongType(key))
  }

  /** Paper.from_dict: the seven required keys are read in declaration order,
      citations default to 0 and the cluster fields to None; other keys are ignored. */
  function FromDict(d: Dict): (r: Result<Paper, DictError>)
    ensures r.Ok? ==> {"id", "title", "authors", "abstract", "keywords", "year", "venue"} <= d.Keys
    ensures "id" !in d ==> r == Err(MissingKey("id"))
    ensures r.Ok? && "citations" !in d ==> r.value.citations == 0
    ensures r.Ok? && "cluster_id" !in d ==> r.value.clusterId == None
    ensures r.Ok? && "cluster_name" !in d ==> r.value.clusterName == None
  {
    var id :- RequiredStr(d, "id");
    var title :- RequiredStr(d, "title");
    var authors :- RequiredList(d, "authors");
    var abstractText :- RequiredStr(d, "abstract");
    var keywords :- RequiredList(d, "keywords");
    var year :- RequiredInt(d, "year");
    var venue :- RequiredStr(d, "venue");
    var citations :- IntOr(d, "citations", 0);
    var clusterId :- NullableInt(d, "cluster_id");
    var clusterName :- NullableStr(d, "cluster_name");
    Ok(NewPaper(id, title, authors, abstractText, keywords, year, venue, citations, clusterId, clusterName))
  }

  /** Reading back a serialised paper gives the same paper. */
  lemma FromToDict(p: Paper)
    ensures FromDict(ToDict(p)) == Ok(p)
  {
    var d := ToDict(p);
    assert NullableInt(d, "cluster_id") == Ok(p.clusterId) by {
      match p.clusterId
      case Some(i) =>
      case None =>
    }
    assert NullableStr(d, "cluster_name") == Ok(p.clusterName) by {
      match p.clusterName
      case Some(s) =>
      case None =>
    }
  }

  /** What each field of a paper read from a dictionary was read from. */
  lemma FromDictFields(d: Dict)
    requires FromDict(d).Ok?
    ensures var p := FromDict(d).value;
      && RequiredStr(d, "id") == Ok(p.id) && RequiredStr(d, "title") == Ok(p.title)
      && RequiredList(d, "authors") == Ok(p.authors) && RequiredStr(d, "abstract") == Ok(p.abstractText)
      && RequiredList(d, "keywords") == Ok(p.keywords) && RequiredInt(d, "year") == Ok(p.year)
      && RequiredStr(d, "venue") == Ok(p.venue) && IntOr(d, "citations", 0) == Ok(p.citations)
      && NullableInt(d, "cluster_id") == Ok(p.clusterId) && NullableStr(d, "cluster_name") == Ok(p.clusterName)
  {
  }

  lemma NullableIntRestored(d: Dict, key: string, v: Option<int>)
    requires NullableInt(d, key) == Ok(v)
    ensures key in d ==> d[key] == OptionalInt(v)
  {
    if key in d {
      match d[key]
      case Int(i) =>
      case Null =>
      case _ =>
    }
  }

  lemma NullableStrRestored(d: Dict, key: string, v: Option<string>)
    requires NullableStr(d, key) == Ok(v)
    ensures key in d ==> d[key] == OptionalStr(v)
  {
    if key in d {
      match d[key]
      case Str(s) =>
      case Null =>
      case _ =>
    }
  }

  /** Serialising a paper read from a dictionary reproduces every field key the
      dictionary had, so nothing that was read is lost. */
  lemma ToFromDict(d: Dict)
    requires FromDict(d).Ok?
    ensures forall k :: k in d && k in FieldKeys ==> ToDict(FromDict(d).value)[k] == d[k]
  {
    var p := FromDict(d).value;
    FromDictFields(d);
    NullableIntRestored(d, "cluster_id", p.clusterId);
    NullableStrRestored(d, "cluster_name", p.clusterName);
  }

  /** Absent optional keys take the constructor's defaults. */
  lemma FromDictDefaults(d: Dict)
    requires FromDict(d).Ok?
    ensures "citations" !in d ==> FromDict(d).value.citations == 0
    ensures "cluster_id" !in d ==> FromDict(d).value.clusterId == None
    ensures "cluster_name" !in d ==> FromDict(d).value.clusterName == None
  {
  }

  /** A missing required key is reported, naming the first one missing. */
  lemma FromDictMissingKey(d: Dict)
    requires "id" !in d
    ensures FromDict(d) == Err(MissingKey("id"))
  {
  }

  /** get_text_for_clustering: title, the keywords joined by spaces, then the
      abstract, separated by single spaces. */
  function TextForClustering(p: Paper): (text: string)
    ensures |text| == |p.title| + 1 + |Text.Join(" ", p.keywords)| + 1 + |p.abstractText|
    ensures text[..|p.title|] == p.title
    ensures text[|text| - |p.abstractText|..] == p.abstractText
  {
    p.title + " " + Text.Join(" ", p.keywords) + " " + p.abstractText
  }
}
