/** The account structure of facebook_downloader/downloader.py: the
    `get_campaign_data`, `get_ad_set_data` and `get_ad_data` loops that turn
    the API's objects into dictionaries keyed by id, and
    `download_account_structure_per_account`, which joins every ad to its ad
    set and campaign and yields one flat row per ad.

    The API calls themselves are not modelled: their results are given as
    sequences of records. A missing `adlabels` field is the empty sequence,
    which is what `.get('adlabels', [])` yields. */
module AccountStructure {
  import opened Wrappers
  import opened Dicts
  import Labels

  datatype ApiCampaign = ApiCampaign(id: string, name: string, adLabels: seq<Labels.Label>)
  datatype ApiAdSet = ApiAdSet(id: string, name: string, campaignId: string, adLabels: seq<Labels.Label>)
  datatype ApiAd = ApiAd(id: string, name: string, adSetId: string, adLabels: seq<Labels.Label>)

  datatype Campaign = Campaign(name: string, attributes: map<string, string>)
  datatype AdSet = AdSet(name: string, campaignId: string, attributes: map<string, string>)
  datatype Ad = Ad(name: string, adSetId: string, attributes: map<string, string>)

  /** One output row: the nine columns of the account-structure file, with
      the attributes kept as a map rather than serialised to JSON. */
  datatype Row = Row(
    adId: string, adName: string,
    adSetId: string, adSetName: string,
    campaignId: string, campaignName: string,
    accountId: string, accountName: string,
    attributes: map<string, string>)

  /** The `KeyError` a failed lookup raises, with the missing key. */
  datatype JoinError = UnknownAdSet(adSetId: string) | UnknownCampaign(campaignId: string)

  function CampaignPairs(campaigns: seq<ApiCampaign>): seq<(string, Campaign)> {
    seq(|campaigns|, i requires 0 <= i < |campaigns| =>
      (campaigns[i].id, Campaign(campaigns[i].name, Labels.LabelsDict(campaigns[i].adLabels))))
  }

  function AdSetPairs(adSets: seq<ApiAdSet>): seq<(string, AdSet)> {
    seq(|adSets|, i requires 0 <= i < |adSets| =>
      (adSets[i].id, AdSet(adSets[i].name, adSets[i].campaignId, Labels.LabelsDict(adSets[i].adLabels))))
  }

  function AdPairs(ads: seq<ApiAd>): seq<(string, Ad)> {
    seq(|ads|, i requires 0 <= i < |ads| =>
      (ads[i].id, Ad(ads[i].name, ads[i].adSetId, Labels.LabelsDict(ads[i].adLabels))))
  }

  /** `get_campaign_data`: the loop filling `result`. */
  method GetCampaignData(campaigns: seq<ApiCampaign>) returns (result: Dict<Campaign>)
    ensures result == FromPairs(CampaignPairs(campaigns))
  {
    result := Empty();
    for n := 0 to |campaigns|
      invariant result == FromPairs(CampaignPairs(campaigns)[..n])
    {
      var c := campaigns[n];
      var attributes := Labels.ParseLabels(c.adLabels);
      assert CampaignPairs(campaigns)[..n + 1][..n] == CampaignPairs(campaigns)[..n];
      result := Insert(result, c.id, Campaign(c.name, attributes));
    }
    assert CampaignPairs(campaigns)[..|campaigns|] == CampaignPairs(campaigns);
  }

  /** `get_ad_set_data`: the loop filling `result`. */
  method GetAdSetData(adSets: seq<ApiAdSet>) returns (result: Dict<AdSet>)
    ensures result == FromPairs(AdSetPairs(adSets))
  {
    result := Empty();
    for n := 0 to |adSets|
      invariant result == FromPairs(AdSetPairs(adSets)[..n])
    {
      var s := adSets[n];
      var attributes := Labels.ParseLabels(s.adLabels);
      assert AdSetPairs(adSets)[..n + 1][..n] == AdSetPairs(adSets)[..n];
      result := Insert(result, s.id, AdSet(s.name, s.campaignId, attributes));
    }
    assert AdSetPairs(adSets)[..|adSets|] == AdSetPairs(adSets);
  }

  /** `get_ad_data`: the loop filling `result`. */
  method GetAdData(ads: seq<ApiAd>) returns (result: Dict<Ad>)
    ensures result == FromPairs(AdPairs(ads))
  {
    result := Empty();
    for n := 0 to |ads|
      invariant result == FromPairs(AdPairs(ads)[..n])
    {
      var a := ads[n];
      var attributes := Labels.ParseLabels(a.adLabels);
      assert AdPairs(ads)[..n + 1][..n] == AdPairs(ads)[..n];
      result := Insert(result, a.id, Ad(a.name, a.adSetId, attributes));
    }
    assert AdPairs(ads)[..|ads|] == AdPairs(ads);
  }

  /** Every ad id the API returned is a key of the ad data, and it holds the
      name, ad set and parsed labels of the last ad returned with that id. */
  lemma AdDataSpec(ads: seq<ApiAd>, i: nat)
    requires i < |ads|
    requires forall j :: i < j < |ads| ==> ads[j].id != ads[i].id
    ensures ads[i].id in FromPairs(AdPairs(ads)).entries
    ensures FromPairs(AdPairs(ads)).entries[ads[i].id] ==
      Ad(ads[i].name, ads[i].adSetId, Labels.LabelsDict(ads[i].adLabels))
  {
    var pairs := AdPairs(ads);
    assert forall j :: i < j < |ads| ==> pairs[j].0 != pairs[i].0;
    FromPairsLastWins(pairs, i);
  }

  /** The ad data has no key that is not the id of some ad. */
  lemma AdDataKeys(ads: seq<ApiAd>, id: string)
    ensures id in FromPairs(AdPairs(ads)).entries <==> exists i :: 0 <= i < |ads| && ads[i].id == id
  {
    var pairs := AdPairs(ads);
    FromPairsKeys(pairs, id);
    assert forall i :: 0 <= i < |ads| ==> pairs[i].0 == ads[i].id;
  }

  /** `{**campaign, **ad_set, **ad}`: the union of the three attribute maps
      in which an ad's key overrides its ad set's, and an ad set's key
      overrides its campaign's. */
  function MergeAttributes(campaign: map<string, string>, adSet: map<string, string>, ad: map<string, string>): (r: map<string, string>)
    ensures forall k :: k in r <==> k in campaign || k in adSet || k in ad
    ensures forall k :: k in ad ==> r[k] == ad[k]
    ensures forall k :: k in adSet && k !in ad ==> r[k] == adSet[k]
    ensures forall k :: k in campaign && k !in adSet && k !in ad ==> r[k] == campaign[k]
  {
    campaign + adSet + ad
  }

  /** The row of one ad: look up its ad set, then that ad set's campaign,
      and raise on the first id that is missing. */
  function JoinAd(accountId: string, accountName: string, adId: string, ad: Ad,
                  adSets: map<string, AdSet>, campaigns: map<string, Campaign>): (r: Result<Row, JoinError>)
    ensures ad.adSetId !in adSets ==> r == Err(UnknownAdSet(ad.adSetId))
    ensures ad.adSetId in adSets && adSets[ad.adSetId].campaignId !in campaigns ==>
      r == Err(UnknownCampaign(adSets[ad.adSetId].campaignId))
    ensures r.Ok? <==> ad.adSetId in adSets && adSets[ad.adSetId].campaignId in campaigns
    ensures r.Ok? ==>
      var row := r.value;
      && row.adId == adId && row.adName == ad.name
      && row.adSetId == ad.adSetId && row.adSetName == adSets[row.adSetId].name
      && row.campaignId == adSets[row.adSetId].campaignId && row.campaignName == campaigns[row.campaignId].name
      && row.accountId == accountId && row.accountName == accountName
      && row.attributes == MergeAttributes(campaigns[row.campaignId].attributes,
                                           adSets[row.adSetId].attributes, ad.attributes)
  {
    var adSetId := ad.adSetId;
    if adSetId !in adSets then Err(UnknownAdSet(adSetId))
    else
      var adSet := adSets[adSetId];
      var campaignId := adSet.campaignId;
      if campaignId !in campaigns then Err(UnknownCampaign(campaignId))
      else
        var campaign := campaigns[campaignId];
        var attributes := MergeAttributes(campaign.attributes, adSet.attributes, ad.attributes);
        Ok(Row(adId, ad.name, adSetId, adSet.name, campaignId, campaign.name, accountId, accountName, attributes))
  }

  /** The rows of the ads `adIds`, in that order; the first ad whose lookup
      fails aborts the whole sequence with its error. */
  function JoinAll(accountId: string, accountName: string, adIds: seq<string>, ads: map<string, Ad>,
                   adSets: map<string, AdSet>, campaigns: map<string, Campaign>): (r: Result<seq<Row>, JoinError>)
    requires forall i :: 0 <= i < |adIds| ==> adIds[i] in ads
    ensures r.Ok? <==> forall i :: 0 <= i < |adIds| ==>
      JoinAd(accountId, accountName, adIds[i], ads[adIds[i]], adSets, campaigns).Ok?
    ensures r.Ok? ==> |r.value| == |adIds| && forall i :: 0 <= i < |adIds| ==>
      r.value[i] == JoinAd(accountId, accountName, adIds[i], ads[adIds[i]], adSets, campaigns).value
    ensures r.Err? ==> exists i ::
      && 0 <= i < |adIds|
      && JoinAd(accountId, accountName, adIds[i], ads[adIds[i]], adSets, campaigns) == Err(r.error)
      && forall j :: 0 <= j < i ==> JoinAd(accountId, accountName, adIds[j], ads[adIds[j]], adSets, campaigns).Ok?
  {
    if adIds == [] then Ok([])
    else
      match JoinAd(accountId, accountName, adIds[0], ads[adIds[0]], adSets, campaigns)
      case Err(e) => Err(e)
      case Ok(row) =>
        match JoinAll(accountId, accountName, adIds[1..], ads, adSets, campaigns)
        case Err(e) => Err(e)
        case Ok(rows) => Ok([row] + rows)
  }

  /** `download_account_structure_per_account`: one row per entry of the ad
      data, in its iteration order. */
  function AccountStructureRows(accountId: string, accountName: string, campaignData: Dict<Campaign>,
                                adSetData: Dict<AdSet>, adData: Dict<Ad>): (r: Result<seq<Row>, JoinError>)
    requires adData.Valid()
    ensures r.Ok? ==> |r.value| == |adData.keys| && forall i :: 0 <= i < |adData.keys| ==>
      var row := r.value[i];
      var ad := adData.entries[adData.keys[i]];
      && row.adId == adData.keys[i] && row.adName == ad.name && row.adSetId == ad.adSetId
      && row.adSetId in adSetData.entries && row.adSetName == adSetData.entries[row.adSetId].name
      && row.campaignId == adSetData.entries[row.adSetId].campaignId
      && row.campaignId in campaignData.entries && row.campaignName == campaignData.entries[row.campaignId].name
      && row.accountId == accountId && row.accountName == accountName
      && row.attributes == MergeAttributes(campaignData.entries[row.campaignId].attributes,
                                           adSetData.entries[row.adSetId].attributes, ad.attributes)
    ensures r.Err? ==> exists i ::
      && 0 <= i < |adData.keys|
      && (var ad := adData.entries[adData.keys[i]];
          || (ad.adSetId !in adSetData.entries && r.error == UnknownAdSet(ad.adSetId))
          || (ad.adSetId in adSetData.entries && adSetData.entries[ad.adSetId].campaignId !in campaignData.entries
              && r.error == UnknownCampaign(adSetData.entries[ad.adSetId].campaignId)))
  {
    JoinAll(accountId, accountName, adData.keys, adData.entries, adSetData.entries, campaignData.entries)
  }
}
