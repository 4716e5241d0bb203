/** Request filters for the EC2 describe calls, and the choice of the S3
    bucket that holds the state file by its tags. */
module AwsStorage {
  import opened Base
  import opened Plans

  const NO_BUCKET_ERROR := "No valid S3 Buckets found!"
  const ROUTE_INSTANCE_FILTER := "route.instance-id"

  /** One `{ Name, Values }` filter of a describe request. */
  datatype Filter = Filter(name: string, values: seq<string>)

  /** A describe request's parameters, whose filter list is extended in place. */
  class FilterParams {
    var filters: seq<Filter>

    constructor()
      ensures filters == []
    {
      filters := [];
    }

    /** `_addFilterToParams`: append one filter with a single value. */
    method AddFilterToParams(filterName: string, filterValue: string)
      modifies this
      ensures filters == old(filters) + [Filter(filterName, [filterValue])]
    {
      filters := filters + [Filter(filterName, [filterValue])];
    }
  }

  /** The filter `_getRouteTables` adds for each tag, in key order. */
  function TagFilters(tags: seq<Tag>): seq<Filter> {
    if tags == [] then []
    else TagFilters(tags[..|tags| - 1]) + [Filter("tag:" + tags[|tags| - 1].key, [tags[|tags| - 1].value])]
  }

  /** The filters of a route-table request: one per scoping tag, then the
      instance filter when an instance id is given. */
  function RouteTableFilters(tags: seq<Tag>, instanceId: Option<string>): seq<Filter> {
    TagFilters(tags) + (if Truthy(instanceId) then [Filter(ROUTE_INSTANCE_FILTER, [instanceId.value])] else [])
  }

  /** Each tag becomes the filter on `tag:<key>` with its value, in order. */
  lemma {:induction false} TagFiltersMeaning(tags: seq<Tag>)
    ensures |TagFilters(tags)| == |tags|
    ensures forall i :: 0 <= i < |tags| ==> TagFilters(tags)[i] == Filter("tag:" + tags[i].key, [tags[i].value])
  {
    if tags != [] {
      var init := tags[..|tags| - 1];
      TagFiltersMeaning(init);
      assert forall i :: 0 <= i < |init| ==> init[i] == tags[i];
    }
  }

  /** The filter building of `_getRouteTables` (scoping tags, then the
      instance), on a fresh parameter object. */
  method BuildRouteTableParams(tags: seq<Tag>, instanceId: Option<string>) returns (params: FilterParams)
    ensures fresh(params)
    ensures params.filters == RouteTableFilters(tags, instanceId)
  {
    params := new FilterParams();
    var i := 0;
    while i < |tags|
      invariant 0 <= i <= |tags|
      invariant params.filters == TagFilters(tags[..i])
      modifies params
    {
      assert tags[..i + 1][..i] == tags[..i];
      params.AddFilterToParams("tag:" + tags[i].key, tags[i].value);
      i := i + 1;
    }
    assert tags[..i] == tags;
    if Truthy(instanceId) {
      params.AddFilterToParams(ROUTE_INSTANCE_FILTER, instanceId.value);
    } else {
      assert params.filters + [] == params.filters;
    }
  }

  /** A bucket and its tag set, as `_getTags` answers. */
  datatype TaggedBucket = TaggedBucket(bucket: string, tagSet: seq<Tag>)

  /** How many of the wanted tags the bucket carries with the wanted value. */
  function MatchedTags(wanted: seq<Tag>, tagSet: seq<Tag>): (n: nat)
    ensures n <= |wanted|
  {
    if wanted == [] then 0
    else
      var tag := wanted[|wanted| - 1];
      MatchedTags(wanted[..|wanted| - 1], tagSet) + (if TagValue(tagSet, tag.key) == Some(tag.value) then 1 else 0)
  }

  /** The counting loop inside `_getS3BucketByTags`' filter. */
  method CountMatchedTags(wanted: seq<Tag>, tagSet: seq<Tag>) returns (matchedTags: nat)
    ensures matchedTags == MatchedTags(wanted, tagSet)
  {
    matchedTags := 0;
    var i := 0;
    while i < |wanted|
      invariant 0 <= i <= |wanted|
      invariant matchedTags == MatchedTags(wanted[..i], tagSet)
    {
      assert wanted[..i + 1][..i] == wanted[..i];
      if TagValue(tagSet, wanted[i].key) == Some(wanted[i].value) {
        matchedTags := matchedTags + 1;
      }
      i := i + 1;
    }
    assert wanted[..i] == wanted;
  }

  /** All wanted tags are matched exactly when the bucket carries every
      wanted key with the wanted value. */
  lemma {:induction false} MatchedTagsMeaning(wanted: seq<Tag>, tagSet: seq<Tag>)
    ensures MatchedTags(wanted, tagSet) == |wanted| <==>
      forall i :: 0 <= i < |wanted| ==> TagValue(tagSet, wanted[i].key) == Some(wanted[i].value)
  {
    if wanted != [] {
      var init := wanted[..|wanted| - 1];
      MatchedTagsMeaning(init, tagSet);
      assert forall i :: 0 <= i < |init| ==> init[i] == wanted[i];
    }
  }

  predicate Carries(wanted: seq<Tag>, b: TaggedBucket) {
    MatchedTags(wanted, b.tagSet) == |wanted|
  }

  /** The first answered bucket carrying every wanted tag. */
  function FirstMatching(wanted: seq<Tag>, responses: seq<Option<TaggedBucket>>): Option<TaggedBucket> {
    if responses == [] then None
    else if responses[0].Some? && Carries(wanted, responses[0].value) then responses[0]
    else FirstMatching(wanted, responses[1..])
  }

  /** `_getS3BucketByTags` after the tag look-ups: unanswered buckets are
      dropped, the rest filtered by their tags, and the first kept. */
  function S3BucketByTags(wanted: seq<Tag>, responses: seq<Option<TaggedBucket>>): (r: Result<string, string>)
    ensures r.Err? ==> r.error == NO_BUCKET_ERROR
  {
    var found := FirstMatching(wanted, responses);
    if found.None? then Err(NO_BUCKET_ERROR) else Ok(found.value.bucket)
  }

  /** The bucket chosen is the earliest answered one carrying every wanted
      tag; there is none exactly when no answered bucket carries them all. */
  lemma {:induction false} S3BucketByTagsMeaning(wanted: seq<Tag>, responses: seq<Option<TaggedBucket>>)
    ensures S3BucketByTags(wanted, responses).Err? <==>
      forall k :: 0 <= k < |responses| && responses[k].Some? ==> !Carries(wanted, responses[k].value)
    ensures S3BucketByTags(wanted, responses).Ok? ==>
      exists k :: 0 <= k < |responses| && responses[k].Some? && Carries(wanted, responses[k].value) &&
        responses[k].value.bucket == S3BucketByTags(wanted, responses).value &&
        forall j :: 0 <= j < k && responses[j].Some? ==> !Carries(wanted, responses[j].value)
  {
    if responses != [] {
      var rest := responses[1..];
      S3BucketByTagsMeaning(wanted, rest);
      assert forall k :: 0 <= k < |rest| ==> rest[k] == responses[k + 1];
      if !(responses[0].Some? && Carries(wanted, responses[0].value)) && S3BucketByTags(wanted, responses).Ok? {
        var k :| 0 <= k < |rest| && rest[k].Some? && Carries(wanted, rest[k].value) &&
          rest[k].value.bucket == S3BucketByTags(wanted, rest).value &&
          forall j :: 0 <= j < k && rest[j].Some? ==> !Carries(wanted, rest[j].value);
        assert responses[k + 1] == rest[k];
        forall j | 0 <= j < k + 1 && responses[j].Some? ensures !Carries(wanted, responses[j].value) {
          if j > 0 {
            assert responses[j] == rest[j - 1];
          }
        }
      }
    }
  }
}
