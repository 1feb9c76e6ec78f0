/**
 * The state of the CSV mapping page: the uploaded grid and its file name, the
 * caption list, the column-to-caption mapping and the active tab, with the
 * handlers that update them and the progress flags shown on the tabs.
 */
module PrototypePage {
  import opened Wrappers
  import opened Mappings
  import opened MockData
  import opened Sequences

  /** The four tabs of the page. */
  datatype Tab = Upload | Captions | Mapping | Preview

  /** `csvColumns`: the header row, or nothing before an upload. */
  function CsvColumns(csvData: seq<seq<string>>): (r: seq<string>)
    ensures csvData != [] ==> r == csvData[0]
    ensures csvData == [] ==> r == []
  {
    if |csvData| > 0 then csvData[0] else []
  }

  /**
   * The captions proposed on upload: the suggested list for the header, cut to
   * as many entries as the header has columns, never more than six, and never
   * more than the suggested list holds.
   */
  function InitialCaptions(header: seq<string>): (r: seq<string>)
    ensures var suggested := SuggestedCaptionsFor(header);
            && |r| == Min(Min(|header|, 6), |suggested|)
            && r == suggested[..|r|]
    ensures header != [] ==> r != []
  {
    var suggested := SuggestedCaptionsFor(header);
    suggested[..Min(Min(|header|, 6), |suggested|)]
  }

  /** The four flags of `getTabProgress`. */
  datatype Progress = Progress(upload: bool, captions: bool, mapping: bool, complete: bool)

  /**
   * `getTabProgress`: a grid was uploaded, there are captions, there is a mapping,
   * and the mapping has as many keys as the header has columns.
   */
  function TabProgress(csvData: seq<seq<string>>, captions: seq<string>, m: Mapping): (p: Progress)
    ensures p.upload <==> csvData != []
    ensures p.captions <==> captions != []
    ensures p.mapping <==> Keys(m) != []
    ensures p.complete <==> p.upload && p.captions && |Keys(m)| == |CsvColumns(csvData)|
  {
    var hasCsv := |csvData| > 0;
    var hasCaptions := |captions| > 0;
    var hasMappings := |Keys(m)| > 0;
    Progress(hasCsv, hasCaptions, hasMappings, hasCsv && hasCaptions && |Keys(m)| == |CsvColumns(csvData)|)
  }

  /**
   * The completion flag only counts keys. When the header has distinct names and
   * every key is one of them, it holds exactly when every column has a key
   * (a key whose caption is empty still counts).
   */
  lemma CompleteIffEveryColumnHasKey(csvData: seq<seq<string>>, captions: seq<string>, m: Mapping)
    requires WellFormed(m)
    requires Distinct(CsvColumns(csvData))
    requires forall k :: k in Keys(m) ==> k in CsvColumns(csvData)
    ensures TabProgress(csvData, captions, m).complete <==>
      csvData != [] && captions != [] && forall c :: c in CsvColumns(csvData) ==> c in Keys(m)
  {
    var columns := CsvColumns(csvData);
    assert Distinct(Keys(m));
    DistinctCard(Keys(m));
    DistinctCard(columns);
    assert Elements(Keys(m)) <= Elements(columns);
    if |Keys(m)| == |columns| {
      SubsetOfSameSize(Elements(Keys(m)), Elements(columns));
    }
    if forall c :: c in columns ==> c in Keys(m) {
      assert Elements(Keys(m)) == Elements(columns);
    }
  }

  /** Completion implies the upload and caption steps are done. */
  lemma CompleteImpliesEarlierSteps(csvData: seq<seq<string>>, captions: seq<string>, m: Mapping)
    ensures TabProgress(csvData, captions, m).complete ==>
      TabProgress(csvData, captions, m).upload && TabProgress(csvData, captions, m).captions
  {
  }

  /** The page component's state. */
  class Session {
    var csvData: seq<seq<string>>
    var fileName: string
    var captions: seq<string>
    var mappings: Mapping
    var activeTab: Tab

    /** The record never holds a key twice. */
    predicate Valid()
      reads this
    {
      WellFormed(mappings)
    }

    /** The initial state: nothing uploaded, no captions, no mapping, the upload tab. */
    constructor ()
      ensures Valid()
      ensures csvData == [] && fileName == "" && captions == [] && mappings == [] && activeTab == Upload
    {
      csvData := [];
      fileName := "";
      captions := [];
      mappings := [];
      activeTab := Upload;
    }

    /**
     * `handleFileUpload`: stores the grid and name and clears the mapping. For a
     * grid with a header row it proposes captions when there were none and moves
     * to the captions tab. An empty grid has no header row to read, so the
     * handler stops there (`completed` is false) with the rest unchanged.
     */
    method HandleFileUpload(data: seq<seq<string>>, name: string) returns (completed: bool)
      modifies this
      ensures Valid()
      ensures csvData == data && fileName == name && mappings == []
      ensures completed <==> data != []
      ensures completed ==> activeTab == Captions
      ensures completed ==> captions == if old(captions) == [] then InitialCaptions(data[0]) else old(captions)
      ensures !completed ==> captions == old(captions) && activeTab == old(activeTab)
    {
      csvData := data;
      fileName := name;
      mappings := [];
      if data == [] {
        return false;
      }
      var suggested := SuggestedCaptionsFor(data[0]);
      if captions == [] {
        captions := suggested[..Min(Min(|data[0]|, 6), |suggested|)];
      }
      activeTab := Captions;
      completed := true;
    }

    /** `loadSampleData`: uploads one of the bundled datasets, which always completes. */
    method LoadSampleData(dataset: Dataset) returns (completed: bool)
      requires dataset in Samples
      modifies this
      ensures Valid()
      ensures completed
      ensures csvData == dataset.data && fileName == dataset.filename && mappings == [] && activeTab == Captions
      ensures captions == if old(captions) == [] then InitialCaptions(dataset.data[0]) else old(captions)
    {
      completed := HandleFileUpload(dataset.data, dataset.filename);
    }

    /** `handleCaptionsChange` */
    method HandleCaptionsChange(newCaptions: seq<string>)
      requires Valid()
      modifies this
      ensures Valid()
      ensures captions == newCaptions
      ensures csvData == old(csvData) && fileName == old(fileName) && mappings == old(mappings) && activeTab == old(activeTab)
    {
      captions := newCaptions;
    }

    /**
     * `handleMappingUpdate`: the column now reads the caption, every other column
     * reads what it did, and a new column is appended to the key order. Whether
     * the caption is already in use is not looked at.
     */
    method HandleMappingUpdate(csvColumn: string, caption: string)
      requires Valid()
      modifies this
      ensures Valid()
      ensures mappings == Put(old(mappings), csvColumn, caption)
      ensures Get(mappings, csvColumn) == Some(caption)
      ensures forall k :: k != csvColumn ==> Get(mappings, k) == Get(old(mappings), k)
      ensures Keys(mappings) == if csvColumn in Keys(old(mappings)) then Keys(old(mappings)) else Keys(old(mappings)) + [csvColumn]
      ensures csvData == old(csvData) && fileName == old(fileName) && captions == old(captions) && activeTab == old(activeTab)
    {
      PutSpec(mappings, csvColumn, caption);
      mappings := Put(mappings, csvColumn, caption);
    }

    /**
     * `handleMappingRemove`: the column is no longer a key, the other keys keep
     * their order and read what they did, and removing a column that was not
     * mapped changes nothing.
     */
    method HandleMappingRemove(csvColumn: string)
      requires Valid()
      modifies this
      ensures Valid()
      ensures mappings == Remove(old(mappings), csvColumn)
      ensures csvColumn !in Keys(mappings)
      ensures Keys(mappings) == Without(Keys(old(mappings)), csvColumn)
      ensures forall k :: k != csvColumn ==> Get(mappings, k) == Get(old(mappings), k)
      ensures csvColumn !in Keys(old(mappings)) ==> mappings == old(mappings)
      ensures csvData == old(csvData) && fileName == old(fileName) && captions == old(captions) && activeTab == old(activeTab)
    {
      RemoveSpec(mappings, csvColumn);
      GetSpec(Remove(mappings, csvColumn), csvColumn);
      mappings := Remove(mappings, csvColumn);
    }

    /** `setActiveTab`, from the tab bar or a "Next" button. */
    method SetActiveTab(tab: Tab)
      requires Valid()
      modifies this
      ensures Valid()
      ensures activeTab == tab
      ensures csvData == old(csvData) && fileName == old(fileName) && captions == old(captions) && mappings == old(mappings)
    {
      activeTab := tab;
    }
  }

  /** Every bundled dataset has a header, so uploading it proposes captions. */
  lemma SamplesHaveHeaders()
    ensures forall d :: d in Samples ==> d.data != [] && InitialCaptions(d.data[0]) != []
  {
  }
}
