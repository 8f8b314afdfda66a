/** The page that hosts the two upload components and the sales view: it
    collects the files the components hand over, walks a fixed list of
    analysis steps, and decides which panels are shown. Step durations are
    kept as data; the waiting itself is not modelled. */
module App {
  import opened Uploads
  import FileNames
  import Contracts
  import Forecasts

  datatype AnalysisStep = AnalysisStep(id: string, name: string, description: string, duration: nat)

  /** `analysisSteps`: the eight steps in the order they run. */
  const AnalysisSteps: seq<AnalysisStep> := [
    AnalysisStep("contract-analysis", "Analysing Contract",
      "Reading and parsing contract documents", 2000),
    AnalysisStep("price-extraction", "Extracting Price Structure",
      "Identifying pricing models and terms", 1500),
    AnalysisStep("product-attribution", "Attribuierung nach Produkttypen",
      "Categorizing products into 4ML VIAL types", 2500),
    AnalysisStep("product-categories", "Creating Product Categories",
      "Organizing products by 4ML VIALS classification", 1800),
    AnalysisStep("forecast-analysis", "Analysing Forecast Information",
      "Processing forecast data and trends", 2200),
    AnalysisStep("volume-forecasting", "Forecasting Product Volume per Month",
      "Calculating monthly volume projections", 3000),
    AnalysisStep("price-aggregation", "Aggregating Product Price",
      "Consolidating pricing across all products", 1700),
    AnalysisStep("price-volume-mapping", "Mapping Price to Volume",
      "Creating price-volume correlation models", 2800)
  ]

  /** The limits the page passes to its upload components. */
  const ContractMaxFileSize: nat := 15
  const ForecastMaxFileSize: nat := 25

  /** The page raises the contract limit above the component's default of
      10 MB: a PDF of 12 MB is refused by a default component and accepted by
      the page's. Its forecast limit is the component's default. */
  lemma PageUploadLimits(file: FileInfo)
    requires LooksLikePdf(file) && file.size == 12 * BytesPerMegabyte
    ensures Contracts.ValidateContract(file, Contracts.DefaultMaxFileSize).Some?
    ensures Contracts.ValidateContract(file, ContractMaxFileSize).None?
    ensures ForecastMaxFileSize == Forecasts.DefaultMaxFileSize
  {
  }

  /** No two of `steps` share an id. */
  predicate DistinctIds(steps: seq<AnalysisStep>)
  {
    forall i, j :: 0 <= i < j < |steps| ==> steps[i].id != steps[j].id
  }

  /** The ids of `analysisSteps`, in order, written out once more so that
      their distinctness is proved on eight short strings rather than on the
      whole step list. */
  const StepIdList: seq<string> := [
    "contract-analysis", "price-extraction", "product-attribution", "product-categories",
    "forecast-analysis", "volume-forecasting", "price-aggregation", "price-volume-mapping"
  ]

  lemma StepIdListIsIds()
    ensures |StepIdList| == |AnalysisSteps|
    ensures forall i :: 0 <= i < |AnalysisSteps| ==> AnalysisSteps[i].id == StepIdList[i]
  {
  }

  /** Different ids have a different length or a different first letter. */
  lemma StepIdListDistinct()
    ensures forall i, j :: 0 <= i < j < |StepIdList| ==> StepIdList[i] != StepIdList[j]
  {
    var ids := StepIdList;
    assert |ids[0]| == 17 && |ids[1]| == 16 && |ids[2]| == 19 && |ids[3]| == 18;
    assert |ids[4]| == 17 && |ids[5]| == 18 && |ids[6]| == 17 && |ids[7]| == 20;
    assert ids[0][0] == 'c' && ids[4][0] == 'f' && ids[6][0] == 'p';
    assert ids[3][0] == 'p' && ids[5][0] == 'v';
  }

  /** The eight step ids are pairwise different. */
  lemma StepIdsDistinct()
    ensures DistinctIds(AnalysisSteps)
  {
    StepIdListIsIds();
    StepIdListDistinct();
  }

  /** The ids of the first `k` of `steps`. */
  function IdsOf(steps: seq<AnalysisStep>, k: nat): set<string>
    requires k <= |steps|
  {
    set i | 0 <= i < k :: steps[i].id
  }

  /** Running one more step adds exactly its id. */
  lemma IdsOfNext(steps: seq<AnalysisStep>, k: nat)
    requires k < |steps|
    ensures IdsOf(steps, k + 1) == IdsOf(steps, k) + {steps[k].id}
  {
  }

  /** With pairwise different ids, the first `k` steps have `k` different
      ids, and no later step's id is among them. */
  lemma {:induction false} DistinctIdsCount(steps: seq<AnalysisStep>, k: nat)
    requires k <= |steps| && DistinctIds(steps)
    ensures |IdsOf(steps, k)| == k
    ensures forall j :: k <= j < |steps| ==> steps[j].id !in IdsOf(steps, k)
  {
    if k > 0 {
      var before := IdsOf(steps, k - 1);
      DistinctIdsCount(steps, k - 1);
      IdsOfNext(steps, k - 1);
      assert steps[k - 1].id !in before;
      assert |before + {steps[k - 1].id}| == |before| + 1;
      forall j | k <= j < |steps| ensures steps[j].id !in IdsOf(steps, k) {
        assert steps[j].id !in before && steps[j].id != steps[k - 1].id;
      }
    }
  }

  /** How the progress panel draws one step: completed before current. */
  datatype StepDisplay = Completed | Current | Pending

  function DisplayOf(completedSteps: set<string>, currentStep: string, step: AnalysisStep): StepDisplay
  {
    if step.id in completedSteps then Completed
    else if currentStep == step.id then Current
    else Pending
  }

  /** What the page shows while the loop waits on one step. */
  datatype Snapshot = Snapshot(currentStep: string, completedSteps: set<string>)

  /** What the page shows while step `index` of `steps` runs. */
  function SnapshotAt(steps: seq<AnalysisStep>, index: nat): Snapshot
    requires index < |steps|
  {
    Snapshot(steps[index].id, IdsOf(steps, index))
  }

  /** While step `index` runs, the steps before it are drawn completed, that
      step current and the later ones pending. */
  lemma SnapshotDisplay(steps: seq<AnalysisStep>, index: nat, j: nat)
    requires DistinctIds(steps) && index < |steps| && j < |steps|
    ensures DisplayOf(SnapshotAt(steps, index).completedSteps, SnapshotAt(steps, index).currentStep, steps[j]) ==
      if j < index then Completed else if j == index then Current else Pending
  {
    DistinctIdsCount(steps, index);
  }

  /** Once the loop is over, every step is drawn completed. */
  lemma FinishedDisplay(steps: seq<AnalysisStep>, j: nat)
    requires j < |steps|
    ensures DisplayOf(IdsOf(steps, |steps|), "", steps[j]) == Completed
  {
  }

  /** `uploadedContracts.length === 0 && uploadedForecasts.length === 0 ||
      isAnalyzing`: `&&` binds tighter than `||`. */
  predicate AnalyzeButtonDisabled(contracts: nat, forecasts: nat, isAnalyzing: bool)
  {
    (contracts == 0 && forecasts == 0) || isAnalyzing
  }

  /** The summary panel, holding the analyze button, is shown once a file
      arrived. */
  predicate SummaryVisible(contracts: nat, forecasts: nat)
  {
    contracts > 0 || forecasts > 0
  }

  predicate ProgressVisible(isAnalyzing: bool, analysisComplete: bool)
  {
    isAnalyzing || analysisComplete
  }

  predicate VisualizationVisible(analysisComplete: bool, contracts: nat, forecasts: nat)
  {
    analysisComplete || (contracts == 0 && forecasts == 0)
  }

  /** While an analysis runs the button is disabled whatever was uploaded;
      otherwise it is enabled exactly when the summary panel holding it is
      shown. */
  lemma AnalyzeButtonReading(contracts: nat, forecasts: nat, isAnalyzing: bool)
    ensures isAnalyzing ==> AnalyzeButtonDisabled(contracts, forecasts, isAnalyzing)
    ensures !isAnalyzing ==>
      (AnalyzeButtonDisabled(contracts, forecasts, isAnalyzing) <==> !SummaryVisible(contracts, forecasts))
  {
  }

  /** The contract lines of the summary panel. */
  function ContractSummary(files: seq<FileInfo>): (lines: seq<string>)
    ensures |lines| == |files|
    ensures forall i :: 0 <= i < |files| ==> lines[i] == FileNames.CleanPdfName(files[i].name)
  {
    if files == [] then [] else [FileNames.CleanPdfName(files[0].name)] + ContractSummary(files[1..])
  }

  /** The forecast lines of the summary panel. */
  function ForecastSummary(files: seq<FileInfo>): (lines: seq<string>)
    ensures |lines| == |files|
    ensures forall i :: 0 <= i < |files| ==> lines[i] == FileNames.CleanSpreadsheetName(files[i].name)
  {
    if files == [] then [] else [FileNames.CleanSpreadsheetName(files[0].name)] + ForecastSummary(files[1..])
  }

  /** A summary line names a contract as its upload list does. */
  lemma ContractSummaryMatchesList(files: seq<FileInfo>, ids: seq<Id>, i: nat)
    requires i < |files| && |ids| == |files|
    ensures ContractSummary(files)[i] == Contracts.NewContract(files[i], ids[i]).meta
  {
  }

  /** A summary line names a forecast as its upload list does, except that
      the list also capitalises every word. */
  lemma ForecastSummaryMatchesList(files: seq<FileInfo>, ids: seq<Id>, i: nat)
    requires i < |files| && |ids| == |files|
    ensures FileNames.TitleCase(ForecastSummary(files)[i]) == Forecasts.NewForecast(files[i], ids[i]).meta.forecastName
  {
  }

  /** The page state. `steps` is `analysisSteps`. */
  class AppState {
    const steps: seq<AnalysisStep>
    var uploadedContracts: seq<FileInfo>
    var uploadedForecasts: seq<FileInfo>
    var isAnalyzing: bool
    var currentStep: string
    var completedSteps: set<string>
    var analysisComplete: bool

    ghost predicate Valid()
      reads this
    {
      DistinctIds(steps)
    }

    constructor ()
      ensures steps == AnalysisSteps && Valid()
      ensures uploadedContracts == [] && uploadedForecasts == []
      ensures !isAnalyzing && currentStep == "" && completedSteps == {} && !analysisComplete
      ensures VisualizationVisible(analysisComplete, |uploadedContracts|, |uploadedForecasts|)
      ensures !ProgressVisible(isAnalyzing, analysisComplete) && !SummaryVisible(|uploadedContracts|, |uploadedForecasts|)
    {
      steps := AnalysisSteps;
      uploadedContracts := [];
      uploadedForecasts := [];
      isAnalyzing := false;
      currentStep := "";
      completedSteps := {};
      analysisComplete := false;
      StepIdsDistinct();
    }

    /** The two upload components the page renders, each with the page's
        limit and an empty list. */
    method MountUploads() returns (contracts: Contracts.ContractUpload, forecasts: Forecasts.ForecastUpload)
      ensures fresh(contracts) && fresh(forecasts)
      ensures contracts.maxFileSize == ContractMaxFileSize && contracts.uploadedContracts == [] && contracts.Valid()
      ensures forecasts.maxFileSize == ForecastMaxFileSize && forecasts.uploadedForecasts == [] && forecasts.Valid()
    {
      contracts := new Contracts.ContractUpload(ContractMaxFileSize);
      forecasts := new Forecasts.ForecastUpload(ForecastMaxFileSize);
    }

    /** `handleContractUpload`: records the file and discards any earlier
        analysis result; the visualization hides until the next analysis. */
    method HandleContractUpload(file: FileInfo)
      modifies this
      ensures uploadedContracts == old(uploadedContracts) + [file]
      ensures !analysisComplete && completedSteps == {}
      ensures uploadedForecasts == old(uploadedForecasts)
      ensures isAnalyzing == old(isAnalyzing) && currentStep == old(currentStep)
      ensures SummaryVisible(|uploadedContracts|, |uploadedForecasts|)
      ensures !VisualizationVisible(analysisComplete, |uploadedContracts|, |uploadedForecasts|)
    {
      uploadedContracts := uploadedContracts + [file];
      analysisComplete := false;
      completedSteps := {};
    }

    /** `handleForecastUpload`. */
    method HandleForecastUpload(file: FileInfo)
      modifies this
      ensures uploadedForecasts == old(uploadedForecasts) + [file]
      ensures !analysisComplete && completedSteps == {}
      ensures uploadedContracts == old(uploadedContracts)
      ensures isAnalyzing == old(isAnalyzing) && currentStep == old(currentStep)
      ensures SummaryVisible(|uploadedContracts|, |uploadedForecasts|)
      ensures !VisualizationVisible(analysisComplete, |uploadedContracts|, |uploadedForecasts|)
    {
      uploadedForecasts := uploadedForecasts + [file];
      analysisComplete := false;
      completedSteps := {};
    }

    /** `startAnalysis`: walks the steps in order, each one first current and
        then completed, and ends with every step completed, none current, and
        the analysis marked complete. `trace` records what the page shows
        while each step runs. */
    method StartAnalysis() returns (ghost trace: seq<Snapshot>)
      requires Valid()
      modifies this
      ensures Valid()
      ensures |trace| == |steps| && forall i :: 0 <= i < |steps| ==> trace[i] == SnapshotAt(steps, i)
      ensures completedSteps == IdsOf(steps, |steps|) && |completedSteps| == |steps|
      ensures currentStep == "" && !isAnalyzing && analysisComplete
      ensures uploadedContracts == old(uploadedContracts) && uploadedForecasts == old(uploadedForecasts)
      ensures ProgressVisible(isAnalyzing, analysisComplete)
      ensures VisualizationVisible(analysisComplete, |uploadedContracts|, |uploadedForecasts|)
    {
      isAnalyzing := true;
      analysisComplete := false;
      completedSteps := {};
      trace := [];
      for i := 0 to |steps|
        invariant completedSteps == IdsOf(steps, i)
        invariant isAnalyzing && !analysisComplete
        invariant |trace| == i && forall j :: 0 <= j < i ==> trace[j] == SnapshotAt(steps, j)
        invariant uploadedContracts == old(uploadedContracts) && uploadedForecasts == old(uploadedForecasts)
      {
        var step := steps[i];
        currentStep := step.id;
        trace := trace + [Snapshot(currentStep, completedSteps)];
        IdsOfNext(steps, i);
        completedSteps := completedSteps + {step.id};
      }
      DistinctIdsCount(steps, |steps|);
      currentStep := "";
      isAnalyzing := false;
      analysisComplete := true;
    }
  }
}
