/** The query string of the listing request. */
module UrlParams {
  import opened Common

  /** `combineUrlParams(dirId, sort)`: a `parent` parameter for a truthy
      directory id and a `sort` parameter for a non-empty sort key, and
      nothing else. */
  method CombineUrlParams(dirId: Nullish<string>, sort: string) returns (params: map<string, string>)
    ensures "parent" in params <==> dirId.Val? && dirId.value != ""
    ensures "parent" in params ==> params["parent"] == dirId.value
    ensures "sort" in params <==> sort != ""
    ensures "sort" in params ==> params["sort"] == sort
    ensures params.Keys <= {"parent", "sort"}
    ensures IsRootId(dirId) ==> params == if sort == "" then map[] else map["sort" := sort]
  {
    params := map[];
    if Truthy(dirId) {
      params := params["parent" := dirId.value];
    }
    if sort != "" {
      params := params["sort" := sort];
    }
  }

  /** The directory ids the listing request treats as the root: `null`,
      `undefined` and the empty string. */
  predicate IsRootId(dirId: Nullish<string>) {
    !Truthy(dirId)
  }
}
