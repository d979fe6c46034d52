/** types.go: the options of an `AddResource` call and their validation. */
module ResourceOptions {
  import opened Common

  datatype AddResourceOption = AddResourceOption(
    partitions: int,
    stateModel: string,
    rebalancerMode: string,
    rebalanceStrategy: string,
    bucketSize: int,
    maxPartitionsPerInstance: int)

  /** `DefaultAddResourceOption`: the given partition count and state model,
      semi-automatic rebalancing, every other field at its zero value. */
  function DefaultAddResourceOption(partitions: int, stateModel: string): (opt: AddResourceOption)
    ensures opt.partitions == partitions && opt.stateModel == stateModel
    ensures opt.rebalancerMode == "SEMI_AUTO"
    ensures opt.rebalanceStrategy == "" && opt.bucketSize == 0 && opt.maxPartitionsPerInstance == 0
  {
    AddResourceOption(partitions, stateModel, "SEMI_AUTO", "", 0, 0)
  }

  /** `validate`: rejects fewer than one partition, an empty state model or
      an empty rebalancer mode, and accepts everything else.  It takes the
      option by value, so there is nothing it could change. */
  function Validate(opt: AddResourceOption): (err: Option<Error>)
    ensures err.Some? <==> opt.partitions < 1 || opt.stateModel == "" || opt.rebalancerMode == ""
    ensures err.Some? ==> err.value == InvalidAddResourceOption
  {
    if opt.partitions < 1 || opt.stateModel == "" || opt.rebalancerMode == "" then
      Some(InvalidAddResourceOption)
    else
      None
  }

  /** The default options pass validation exactly when there is at least one
      partition and a state model is named. */
  lemma ValidateDefault(partitions: int, stateModel: string)
    ensures Validate(DefaultAddResourceOption(partitions, stateModel)).None? <==>
      partitions >= 1 && stateModel != ""
  {
  }
}
