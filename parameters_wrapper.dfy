/** Route parameter declarations for the API documentation. */
module ParametersWrapper {

  /** `RouteDeclareParams`. */
  datatype RouteParam = RouteParam(name: string, location: string, required: bool, paramType: string)

  /** `ParamName`: a query parameter's name and type. */
  datatype ParamName = ParamName(name: string, paramType: string)

  /** `generateIDParam`: the single required `_id` path parameter. */
  function GenerateIdParam(): (r: seq<RouteParam>)
    ensures |r| == 1 && r[0].name == "_id" && r[0].location == "path"
    ensures r[0].required && r[0].paramType == "string"
  {
    [RouteParam("_id", "path", true, "string")]
  }

  function QueryParam(p: ParamName): RouteParam
  {
    RouteParam(p.name, "query", true, p.paramType)
  }

  /** `generateQueryParam`: one required query parameter for each of the
      first `count` names, in order. Reading past the end of `names` would
      fail in the source, hence the precondition. */
  method GenerateQueryParam(count: int, names: seq<ParamName>) returns (params: seq<RouteParam>)
    requires count <= |names|
    ensures |params| == if count <= 0 then 0 else count
    ensures forall i :: 0 <= i < |params| ==>
      params[i].name == names[i].name && params[i].paramType == names[i].paramType
    ensures forall i :: 0 <= i < |params| ==> params[i].location == "query" && params[i].required
  {
    params := [];
    var idxCount := count - 1;
    var index := 0;
    while index <= idxCount
      invariant 0 <= index <= if count <= 0 then 0 else count
      invariant |params| == index
      invariant forall i :: 0 <= i < index ==> params[i] == QueryParam(names[i])
    {
      params := params + [QueryParam(names[index])];
      index := index + 1;
    }
  }
}
