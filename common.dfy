/** Values shared by the registry (ECR) side, the orchestrator (ECS) side and the main loop. */
module Common {

  datatype Option<+T> = None | Some(value: T)

  datatype Result<+T, +E> = Ok(value: T) | Err(error: E)

  /** An error returned by an AWS API call; only its presence matters to the cleaner. */
  datatype AwsError = AwsError(message: string)

  /** An ECR image identifier: the digest and the tag, which is nil for untagged images. */
  datatype ImageId = ImageId(digest: string, tag: Option<string>)
}
